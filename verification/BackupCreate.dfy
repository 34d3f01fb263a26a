/**
 Writing a backup: the snapshot and every file it references are gathered, hashed and written
 with the manifest last.  The writer checks names and presence but neither the size limits
 nor the content addresses, so an archive it wrote may still be refused; this says exactly when.
 */
module BackupCreate {
  import opened Collections
  import opened Options
  import opened Text
  import opened Backup

  /** The archive names of everything the database references. */
  function Referenced(w: World, db: Content): set<string> {
    (set k <- w.images(db) :: IMAGES + k) + (set k <- w.attachments(db) :: ATTACHMENTS + k)
  }

  predicate Gatherable(w: World, db: Content, store: map<string, Content>) {
    forall n <- Referenced(w, db) :: AllowedName(n) && n in store
  }

  function Gathered(w: World, db: Content, store: map<string, Content>): map<string, Content>
    requires Gatherable(w, db, store)
  {
    (map n <- Referenced(w, db) :: store[n])[DATABASE := db]
  }

  function ManifestOf(w: World, files: map<string, Content>): Manifest { Manifest(1, true, Digests(w, files)) }

  ghost predicate Lists(names: seq<string>, files: map<string, Content>) {
    Elements(names) == files.Keys && forall i, j :: 0 <= i < j < |names| ==> names[i] != names[j]
  }

  /** The payload in some order, each file once, and the manifest last. */
  ghost predicate Written(w: World, encode: Manifest -> Content, files: map<string, Content>, archive: seq<Entry>) {
    exists names: seq<string> :: Lists(names, files) && archive == Archive(files, names, encode(ManifestOf(w, files)))
  }

  /** Refuses an unsafe key or a missing file; otherwise writes everything. */
  method Create(w: World, encode: Manifest -> Content, db: Content, store: map<string, Content>) returns (r: Option<seq<Entry>>)
    ensures r.Some? <==> Gatherable(w, db, store)
    ensures r.Some? ==> Written(w, encode, Gathered(w, db, store), r.value)
  {
    hide AllowedName, Archive, Written, Referenced;
    var files := map[DATABASE := db];
    var rest := Referenced(w, db);
    while rest != {}
      invariant rest <= Referenced(w, db)
      invariant forall n <- Referenced(w, db) - rest :: AllowedName(n) && n in store
      invariant files.Keys == (Referenced(w, db) - rest) + {DATABASE} && files[DATABASE] == db
      invariant forall n <- Referenced(w, db) - rest :: files[n] == store[n]
      decreases |rest|
    {
      var n: string :| n in rest;
      ReferencedNames(w, db, n);
      if !AllowedName(n) || n !in store {
        return None;
      }
      files := files[n := store[n]];
      rest := rest - {n};
    }
    NotDatabase(w, db);
    assert files == Gathered(w, db, store);
    var archive := WritePayload(w, encode, files);
    r := Some(archive);
  }

  lemma NotDatabase(w: World, db: Content)
    ensures DATABASE !in Referenced(w, db)
  {
    if DATABASE in Referenced(w, db) {
      ReferencedNames(w, db, DATABASE);
    }
  }

  /** Hashes every file into the manifest, lists the names, then writes the entries in that
      order and the manifest after them. */
  method WritePayload(w: World, encode: Manifest -> Content, files: map<string, Content>) returns (archive: seq<Entry>)
    ensures Written(w, encode, files, archive)
  {
    var digests := HashAll(w, files);
    var names := NamesOf(files);
    archive := [];
    for i := 0 to |names|
      invariant |archive| == i && forall k :: 0 <= k < i ==> names[k] in files && archive[k] == Entry(names[k], files[names[k]], true)
    {
      assert names[i] in Elements(names);
      archive := archive + [Entry(names[i], files[names[i]], true)];
    }
    archive := archive + [Entry(MANIFEST, encode(Manifest(1, true, digests)), true)];
    assert archive == Archive(files, names, encode(ManifestOf(w, files)));
  }

  method HashAll(w: World, files: map<string, Content>) returns (digests: map<string, string>)
    ensures digests == Digests(w, files)
  {
    digests := map[];
    var rest := files.Keys;
    while rest != {}
      invariant rest <= files.Keys && digests.Keys == files.Keys - rest
      invariant forall n <- digests.Keys :: digests[n] == w.digest(files[n])
      decreases |rest|
    {
      var n: string :| n in rest;
      digests := digests[n := w.digest(files[n])];
      rest := rest - {n};
    }
  }

  method NamesOf(files: map<string, Content>) returns (names: seq<string>)
    ensures Lists(names, files)
  {
    names := [];
    var rest := files.Keys;
    while rest != {}
      invariant rest <= files.Keys && Elements(names) == files.Keys - rest
      invariant forall i, j :: 0 <= i < j < |names| ==> names[i] != names[j]
      decreases |rest|
    {
      var n: string :| n in rest;
      assert n !in Elements(names);
      assert Elements(names + [n]) == Elements(names) + {n};
      names := names + [n];
      rest := rest - {n};
    }
  }

  lemma ReferencedNames(w: World, db: Content, n: string)
    requires n in Referenced(w, db)
    ensures n != DATABASE && n != MANIFEST
    ensures HasPrefix(n, IMAGES) != HasPrefix(n, ATTACHMENTS)
    ensures HasPrefix(n, IMAGES) <==> n in set k <- w.images(db) :: IMAGES + k
  {
    assert DATABASE[0] == 't' && MANIFEST[0] == 'm' && IMAGES[0] == 'i' && ATTACHMENTS[0] == 'a';
    if k :| k in w.images(db) && n == IMAGES + k {
      assert n[..|IMAGES|] == IMAGES;
    } else {
      var k :| k in w.attachments(db) && n == ATTACHMENTS + k;
      assert n[..|ATTACHMENTS|] == ATTACHMENTS;
    }
  }

  lemma GatheredNames(w: World, db: Content, store: map<string, Content>)
    requires Gatherable(w, db, store)
    ensures var files := Gathered(w, db, store);
            MANIFEST !in files && DATABASE in files && files[DATABASE] == db
            && (forall n <- files.Keys :: AllowedName(n))
            && (forall n <- Referenced(w, db) :: n in files && n != DATABASE && files[n] == store[n])
  {
    hide AllowedName;
    FixedNames();
    forall n <- Referenced(w, db) ensures n != DATABASE && n != MANIFEST {
      ReferencedNames(w, db, n);
    }
  }

  lemma GatheredDatabase(w: World, db: Content, store: map<string, Content>)
    requires Gatherable(w, db, store)
    ensures DatabaseOk(w, db, ManifestOf(w, Gathered(w, db, store))) <==> w.sound(db)
  {
    hide AllowedName;
    GatheredNames(w, db, store);
    FixedNames();
    var files := Gathered(w, db, store);
    forall k <- w.images(db) ensures IMAGES + k in files {
    }
    forall k <- w.attachments(db) ensures ATTACHMENTS + k in files {
    }
    forall n <- files.Keys | n != DATABASE
      ensures HasPrefix(n, IMAGES) ==> n[|IMAGES|..] in w.images(db)
      ensures HasPrefix(n, ATTACHMENTS) ==> n[|ATTACHMENTS|..] in w.attachments(db)
    {
      ReferencedNames(w, db, n);
      PrefixSplits(n);
      KeyOfName(w, db, n);
    }
  }

  lemma KeyOfName(w: World, db: Content, n: string)
    requires n in Referenced(w, db)
    ensures HasPrefix(n, IMAGES) ==> n[|IMAGES|..] in w.images(db)
    ensures HasPrefix(n, ATTACHMENTS) ==> n[|ATTACHMENTS|..] in w.attachments(db)
  {
    ReferencedNames(w, db, n);
    if HasPrefix(n, IMAGES) {
      var k :| k in w.images(db) && n == IMAGES + k;
      assert n[|IMAGES|..] == k;
    } else {
      var k :| k in w.attachments(db) && n == ATTACHMENTS + k;
      assert n[|ATTACHMENTS|..] == k;
    }
  }

  /** A written archive can be restored exactly when the snapshot is sound, the payload with its
      manifest stays within the limit both expanded and compressed, and every referenced file
      still hashes to its name. */
  lemma WrittenAcceptedIff(w: World, encode: Manifest -> Content, db: Content, store: map<string, Content>, archive: seq<Entry>)
    requires Gatherable(w, db, store) && Written(w, encode, Gathered(w, db, store), archive)
    requires w.parse(encode(ManifestOf(w, Gathered(w, db, store)))) == Some(ManifestOf(w, Gathered(w, db, store)))
    ensures Accepts(w, archive) <==>
              w.sound(db) && Size(archive) <= MAX_BYTES && w.packed(archive) <= MAX_BYTES && forall n <- Referenced(w, db) :: Addressed(n, w.digest(store[n]))
  {
    hide AllowedName, Addressed, Size, Gathered, DatabaseOk, Body, Names, Digests, ListedOk, Archive;
    var files := Gathered(w, db, store);
    var m := ManifestOf(w, files);
    var names: seq<string> :| Lists(names, files) && archive == Archive(files, names, encode(m));
    GatheredNames(w, db, store);
    GatheredDatabase(w, db, store);
    ArchiveNames(files, names, encode(m));
    DigestKeys(w, files);
    EntriesOfArchive(files, names, encode(m));
    ListedIff(w, db, store, archive);
  }

  lemma EntriesOfArchive(files: map<string, Content>, names: seq<string>, manifest: Content)
    requires Lists(names, files) && MANIFEST !in files && forall n <- files.Keys :: AllowedName(n)
    ensures var a := Archive(files, names, manifest);
            (forall i :: 0 <= i < |a| ==> a[i].regular && AllowedName(a[i].name) && (a[i].name == MANIFEST || a[i].name in files))
  {
    hide AllowedName;
    FixedNames();
    forall i | 0 <= i < |names| ensures names[i] in files {
      assert names[i] in Elements(names);
    }
  }

  lemma ListedIff(w: World, db: Content, store: map<string, Content>, a: seq<Entry>)
    requires Gatherable(w, db, store)
    requires forall n <- Gathered(w, db, store).Keys :: Body(a, n) == Some(Gathered(w, db, store)[n])
    ensures var files := Gathered(w, db, store);
            Digests(w, files).Keys == files.Keys
            && ((forall n <- files.Keys :: ListedOk(w, a, n, Digests(w, files)[n]))
                <==> forall n <- Referenced(w, db) :: Addressed(n, w.digest(store[n])))
  {
    hide AllowedName, Addressed, Body;
    GatheredNames(w, db, store);
    DatabaseAddressed(w.digest(db));
    var files := Gathered(w, db, store);
    assert files.Keys == Referenced(w, db) + {DATABASE};
    forall n <- Referenced(w, db) ensures ListedOk(w, a, n, Digests(w, files)[n]) <==> Addressed(n, w.digest(store[n])) {
    }
    assert ListedOk(w, a, DATABASE, Digests(w, files)[DATABASE]);
  }

  /** Every file the snapshot references is stored under its content address. */
  ghost predicate ContentAddressed(w: World, db: Content, store: map<string, Content>) {
    (forall k <- w.images(db) :: IMAGES + k in store && k == w.digest(store[IMAGES + k]) + ".png")
    && (forall k <- w.attachments(db) ::
          ATTACHMENTS + k in store
          && exists x <- {".jpg", ".png", ".pdf"} :: k == w.digest(store[ATTACHMENTS + k]) + x)
  }

  /** From a content-addressed store a backup is always written, and what was written within
      both limits is always accepted. */
  lemma BackupRestorable(w: World, encode: Manifest -> Content, db: Content, store: map<string, Content>, archive: seq<Entry>)
    requires GoodDigests(w) && ContentAddressed(w, db, store) && w.sound(db)
    requires forall files: map<string, Content> :: w.parse(encode(ManifestOf(w, files))) == Some(ManifestOf(w, files))
    ensures Gatherable(w, db, store)
    ensures Written(w, encode, Gathered(w, db, store), archive) && Size(archive) <= MAX_BYTES && w.packed(archive) <= MAX_BYTES
            ==> Accepts(w, archive)
  {
    hide AllowedName, Addressed, Written, Gathered, Accepts, Size;
    forall n <- Referenced(w, db) ensures n in store && AllowedName(n) && Addressed(n, w.digest(store[n])) {
      StoredName(w, db, store, n);
    }
    if Written(w, encode, Gathered(w, db, store), archive) {
      WrittenAcceptedIff(w, encode, db, store, archive);
    }
  }

  lemma StoredName(w: World, db: Content, store: map<string, Content>, n: string)
    requires GoodDigests(w) && ContentAddressed(w, db, store) && n in Referenced(w, db)
    ensures n in store && AllowedName(n) && Addressed(n, w.digest(store[n]))
  {
    hide AllowedName, Addressed;
    if k :| k in w.images(db) && n == IMAGES + k {
      ContentNameAllowed(w.digest(store[n]), ".png", false);
      assert n == IMAGES + w.digest(store[n]) + ".png";
    } else {
      var k :| k in w.attachments(db) && n == ATTACHMENTS + k;
      var x :| x in {".jpg", ".png", ".pdf"} && k == w.digest(store[ATTACHMENTS + k]) + x;
      ContentNameAllowed(w.digest(store[n]), x, true);
      assert n == ATTACHMENTS + w.digest(store[n]) + x;
    }
  }
}

/**
 Backup archives: what `Create` writes, what `extractValidated` accepts, and how `Restore` moves
 existing data aside.  SHA-256, the manifest's JSON and the SQLite database are parameters: a
 digest function with 64 lowercase hexadecimal digits, a parser, and what a database references.
 */
module Backup {
  import opened Options
  import opened Text

  type Content = seq<bv8>

  const DATABASE := "teamtaler.db"
  const MANIFEST := "manifest.json"
  const IMAGES := "images/"
  const ATTACHMENTS := "attachments/"
  const MAX_BYTES: nat := 2 * 1024 * 1024 * 1024

  // ---------------------------------------------------------------- entry names

  function Trim(s: string, x: string): string { if HasSuffix(s, x) then s[..|s| - |x|] else s }

  /** The part of the file name that must be hexadecimal: the extensions come off one after the
      other, whichever of them the name ends with. */
  function Address(filename: string): string { Trim(Trim(Trim(filename, ".jpg"), ".png"), ".pdf") }

  predicate ContentName(filename: string, attachment: bool) {
    |filename| == 68
    && (HasSuffix(filename, ".png") || (attachment && (HasSuffix(filename, ".jpg") || HasSuffix(filename, ".pdf"))))
    && AllHex(Address(filename))
  }

  /** The allowlist.  Its first tests (canonical, local, no "..") reject nothing that the rest
      accepts, since every accepted name is one of two fixed names or a prefix and hex digits with
      extensions. */
  predicate AllowedName(name: string) {
    name == DATABASE || name == MANIFEST
    || (HasPrefix(name, ATTACHMENTS) && ContentName(name[|ATTACHMENTS|..], true))
    || (HasPrefix(name, IMAGES) && ContentName(name[|IMAGES|..], false))
  }

  // ---------------------------------------------------------------- archives

  datatype Manifest = Manifest(version: int, timeValid: bool, files: map<string, string>)
  datatype Entry = Entry(name: string, body: Content, regular: bool)

  /** What the validator is told by code outside this model; `packed` counts the compressed bytes
      that have to be read to get to the end of the archive. */
  datatype World = World(digest: Content -> string, parse: Content -> Option<Manifest>, images: Content -> set<string>,
                         attachments: Content -> set<string>, sound: Content -> bool, packed: seq<Entry> -> nat)

  ghost predicate GoodDigests(w: World) { forall c: Content :: |w.digest(c)| == 64 && AllHex(w.digest(c)) }

  function Names(archive: seq<Entry>): set<string> { set e <- archive :: e.name }

  function Size(archive: seq<Entry>): nat { if archive == [] then 0 else Size(archive[..|archive| - 1]) + |archive[|archive| - 1].body| }

  function Body(archive: seq<Entry>, name: string): Option<Content> {
    if archive == [] then None
    else if archive[|archive| - 1].name == name then Some(archive[|archive| - 1].body)
    else Body(archive[..|archive| - 1], name)
  }

  function Base(name: string): string {
    if HasPrefix(name, IMAGES) then name[|IMAGES|..]
    else if HasPrefix(name, ATTACHMENTS) then name[|ATTACHMENTS|..] else name
  }

  /** The second, stricter look at content-addressed names: the whole base must be the digest. */
  predicate Addressed(name: string, digest: string) {
    (HasPrefix(name, IMAGES) ==> |Trim(Base(name), ".png")| == 64 && Trim(Base(name), ".png") == digest)
    && (HasPrefix(name, ATTACHMENTS) ==>
          |Trim(Trim(Trim(Base(name), ".jpg"), ".png"), ".pdf")| == 64
          && Trim(Trim(Trim(Base(name), ".jpg"), ".png"), ".pdf") == digest)
  }

  predicate EntriesOk(archive: seq<Entry>) {
    (forall i :: 0 <= i < |archive| ==> archive[i].regular && AllowedName(archive[i].name))
    && (forall i, j :: 0 <= i < j < |archive| ==> archive[i].name != archive[j].name)
    && Size(archive) <= MAX_BYTES
  }

  predicate ManifestOk(w: World, archive: seq<Entry>, m: Manifest) {
    m.version == 1 && m.timeValid && DATABASE in m.files
    && (forall i :: 0 <= i < |archive| && archive[i].name != MANIFEST ==> archive[i].name in m.files)
    && MANIFEST !in m.files && forall n <- m.files.Keys :: ListedOk(w, archive, n, m.files[n])
  }

  /** A listed file is present under an allowed name with the listed digest. */
  predicate ListedOk(w: World, archive: seq<Entry>, n: string, digest: string) {
    AllowedName(n) && Body(archive, n).Some? && w.digest(Body(archive, n).value) == digest && Addressed(n, digest)
  }

  predicate DatabaseOk(w: World, db: Content, m: Manifest) {
    w.sound(db)
    && (forall k <- w.images(db) :: IMAGES + k in m.files)
    && (forall k <- w.attachments(db) :: ATTACHMENTS + k in m.files)
    && (forall n <- m.files.Keys ::
          (HasPrefix(n, IMAGES) ==> n[|IMAGES|..] in w.images(db)) && (HasPrefix(n, ATTACHMENTS) ==> n[|ATTACHMENTS|..] in w.attachments(db)))
  }

  predicate Accepts(w: World, archive: seq<Entry>) {
    EntriesOk(archive) && w.packed(archive) <= MAX_BYTES
    && Body(archive, MANIFEST).Some?
    && w.parse(Body(archive, MANIFEST).value).Some?
    && (var m := w.parse(Body(archive, MANIFEST).value).value;
        ManifestOk(w, archive, m) && DatabaseOk(w, Body(archive, DATABASE).value, m))
  }

  // ---------------------------------------------------------------- reading archives

  lemma {:induction false} BodyMeans(archive: seq<Entry>, name: string)
    ensures Body(archive, name).Some? <==> name in Names(archive)
    ensures Body(archive, name).Some? ==> exists i :: 0 <= i < |archive| && archive[i].name == name && archive[i].body == Body(archive, name).value
  {
    if archive != [] {
      var n := |archive| - 1;
      BodyMeans(archive[..n], name);
      assert archive == archive[..n] + [archive[n]];
      if archive[n].name != name && Body(archive[..n], name).Some? {
        var i :| 0 <= i < n && archive[..n][i].name == name && archive[..n][i].body == Body(archive[..n], name).value;
        assert archive[i].name == name;
      }
    }
  }

  lemma {:induction false} BodyAt(archive: seq<Entry>, i: nat)
    requires i < |archive| && forall j, k :: 0 <= j < k < |archive| ==> archive[j].name != archive[k].name
    ensures Body(archive, archive[i].name) == Some(archive[i].body)
  {
    var n := |archive| - 1;
    if i < n {
      BodyAt(archive[..n], i);
    }
  }

  /** The extraction loop: reads entry by entry and refuses at the first that is not a regular,
      allowed, new file within the size limit, before anything of it is written. */
  method Extract(archive: seq<Entry>) returns (extracted: Option<map<string, Content>>)
    ensures extracted.Some? <==> EntriesOk(archive)
    ensures extracted.Some? ==> extracted.value.Keys == Names(archive)
    ensures extracted.Some? ==> forall n <- extracted.value.Keys :: Some(extracted.value[n]) == Body(archive, n)
  {
    hide AllowedName, EntriesOk, Size, Names, Body;
    var files: map<string, Content> := map[];
    var total := 0;
    NothingRead(archive);
    for i := 0 to |archive|
      invariant total == Size(archive[..i]) <= MAX_BYTES && EntriesOk(archive[..i])
      invariant Unpacked(archive[..i], files)
    {
      var e := archive[i];
      OneMoreEntry(archive, i, files);
      if !e.regular || !AllowedName(e.name) || e.name in files || |e.body| > MAX_BYTES - total {
        return None;
      }
      total := total + |e.body|;
      files := files[e.name := e.body];
    }
    assert archive[..|archive|] == archive;
    extracted := Some(files);
  }

  ghost predicate Unpacked(archive: seq<Entry>, files: map<string, Content>) {
    files.Keys == Names(archive) && forall n <- files.Keys :: Some(files[n]) == Body(archive, n)
  }

  lemma NothingRead(archive: seq<Entry>)
    ensures Size(archive[..0]) == 0 && EntriesOk(archive[..0]) && Unpacked(archive[..0], map[])
  {
  }

  /** What the next entry decides. */
  lemma OneMoreEntry(archive: seq<Entry>, i: nat, files: map<string, Content>)
    requires i < |archive| && EntriesOk(archive[..i]) && Unpacked(archive[..i], files)
    ensures Size(archive[..i + 1]) == Size(archive[..i]) + |archive[i].body|
    ensures EntriesOk(archive[..i + 1]) <==>
              archive[i].regular && AllowedName(archive[i].name) && archive[i].name !in files && Size(archive[..i + 1]) <= MAX_BYTES
    ensures EntriesOk(archive) ==> EntriesOk(archive[..i + 1])
    ensures Unpacked(archive[..i + 1], files[archive[i].name := archive[i].body])
  {
    hide AllowedName, Size, Names, Body;
    var before, now := archive[..i], archive[..i + 1];
    assert now[..i] == before && now == before + [archive[i]];
    SizeGrows(archive, i + 1);
    ReadOne(before, archive[i]);
    NameRead(before, archive[i].name);
    forall k | 0 <= k < i ensures now[k] == before[k] {
    }
    if archive[i].name in files {
      var k :| 0 <= k < i && before[k].name == archive[i].name;
      assert now[k].name == now[i].name;
    }
  }

  lemma ReadOne(before: seq<Entry>, e: Entry)
    ensures Size(before + [e]) == Size(before) + |e.body| && Names(before + [e]) == Names(before) + {e.name}
    ensures forall n: string :: Body(before + [e], n) == if n == e.name then Some(e.body) else Body(before, n)
  {
    assert (before + [e])[..|before|] == before;
  }

  lemma NameRead(archive: seq<Entry>, name: string)
    ensures name in Names(archive) <==> exists k :: 0 <= k < |archive| && archive[k].name == name
  {
    if exists k :: 0 <= k < |archive| && archive[k].name == name {
      var k :| 0 <= k < |archive| && archive[k].name == name;
      assert archive[k] in archive;
    }
  }

  lemma {:induction false} SizeGrows(archive: seq<Entry>, i: nat)
    requires i <= |archive|
    ensures Size(archive[..i]) <= Size(archive)
    decreases |archive| - i
  {
    if i < |archive| {
      SizeGrows(archive, i + 1);
      assert archive[..i + 1][..i] == archive[..i];
    } else {
      assert archive[..i] == archive;
    }
  }

  /** The whole validation.  Reading stops short of the end when the file is cut off at the limit. */
  method ExtractValidated(w: World, archive: seq<Entry>) returns (ok: bool)
    ensures ok <==> Accepts(w, archive)
  {
    hide AllowedName, Addressed, DatabaseOk, EntriesOk, Body, Names;
    var extracted := Extract(archive);
    BodyMeans(archive, MANIFEST);
    BodyMeans(archive, DATABASE);
    if w.packed(archive) > MAX_BYTES || extracted.None? || MANIFEST !in extracted.value {
      return false;
    }
    var files := extracted.value;
    var parsed := w.parse(files[MANIFEST]);
    if parsed.None? || parsed.value.version != 1 || DATABASE !in parsed.value.files || !parsed.value.timeValid {
      return false;
    }
    var m := parsed.value;
    NamesCovered(archive, m);
    if exists n <- files.Keys :: n != MANIFEST && n !in m.files {
      return false;
    }
    var rest := m.files.Keys;
    while rest != {}
      invariant rest <= m.files.Keys
      invariant MANIFEST !in m.files.Keys - rest && forall n <- m.files.Keys - rest :: ListedOk(w, archive, n, m.files[n])
      decreases |rest|
    {
      var n: string :| n in rest;
      BodyMeans(archive, n);
      if !AllowedName(n) || n == MANIFEST || n !in files || w.digest(files[n]) != m.files[n] || !Addressed(n, m.files[n]) {
        return false;
      }
      rest := rest - {n};
    }
    ok := DatabaseOk(w, files[DATABASE], m);
  }

  lemma NamesCovered(archive: seq<Entry>, m: Manifest)
    ensures (exists n <- Names(archive) :: n != MANIFEST && n !in m.files)
            <==> exists i :: 0 <= i < |archive| && archive[i].name != MANIFEST && archive[i].name !in m.files
  {
    if exists i :: 0 <= i < |archive| && archive[i].name != MANIFEST && archive[i].name !in m.files {
      var i :| 0 <= i < |archive| && archive[i].name != MANIFEST && archive[i].name !in m.files;
      assert archive[i] in archive && archive[i].name in Names(archive);
    }
  }

  /** An accepted archive holds exactly the manifest, the database and the files the database
      references, each under its content address and with the digest the manifest lists. */
  lemma AcceptedIsExact(w: World, archive: seq<Entry>, name: string)
    requires Accepts(w, archive)
    ensures Body(archive, DATABASE).Some?
    ensures var db := Body(archive, DATABASE).value;
            name in Names(archive) <==>
              name == MANIFEST || name == DATABASE
              || (HasPrefix(name, IMAGES) && name[|IMAGES|..] in w.images(db))
              || (HasPrefix(name, ATTACHMENTS) && name[|ATTACHMENTS|..] in w.attachments(db))
    ensures name in Names(archive) && name != MANIFEST ==> Addressed(name, w.digest(Body(archive, name).value))
    ensures Body(archive, MANIFEST).Some? && w.parse(Body(archive, MANIFEST).value).Some?
    ensures var m := w.parse(Body(archive, MANIFEST).value).value;
            m.version == 1 && m.timeValid && w.sound(Body(archive, DATABASE).value)
            && Size(archive) <= MAX_BYTES && w.packed(archive) <= MAX_BYTES
            && (name in m.files <==> name in Names(archive) && name != MANIFEST)
            && (name in m.files ==> m.files[name] == w.digest(Body(archive, name).value))
  {
    hide HasPrefix, HasSuffix, Trim, ContentName, Addressed, AllowedName, Size, Body, Names;
    var m := w.parse(Body(archive, MANIFEST).value).value;
    BodyMeans(archive, MANIFEST);
    BodyMeans(archive, DATABASE);
    BodyMeans(archive, name);
    AllowedForms(name);
    PrefixSplits(name);
    if name in Names(archive) && name != MANIFEST {
      var i :| 0 <= i < |archive| && archive[i].name == name;
      assert name in m.files;
    }
  }

  lemma AllowedForms(name: string)
    ensures AllowedName(name) ==> name == DATABASE || name == MANIFEST || HasPrefix(name, IMAGES) || HasPrefix(name, ATTACHMENTS)
  {
  }

  lemma PrefixSplits(name: string)
    ensures HasPrefix(name, IMAGES) ==> |IMAGES| <= |name| && name == IMAGES + name[|IMAGES|..]
    ensures HasPrefix(name, ATTACHMENTS) ==> |ATTACHMENTS| <= |name| && name == ATTACHMENTS + name[|ATTACHMENTS|..]
  {
  }

  // ---------------------------------------------------------------- creating archives

  function Digests(w: World, files: map<string, Content>): map<string, string> {
    map n <- files.Keys :: w.digest(files[n])
  }

  /** The payload in the order the names were sorted, the manifest last. */
  function Archive(files: map<string, Content>, names: seq<string>, manifest: Content): seq<Entry>
    requires forall n <- names :: n in files
  {
    seq(|names|, i requires 0 <= i < |names| => Entry(names[i], files[names[i]], true)) + [Entry(MANIFEST, manifest, true)]
  }

  /** A name built from 64 hexadecimal digits and one extension passes both looks at it. */
  lemma ContentNameAllowed(d: string, x: string, attachment: bool)
    requires |d| == 64 && AllHex(d) && (x == ".png" || (attachment && (x == ".jpg" || x == ".pdf")))
    ensures var n := (if attachment then ATTACHMENTS else IMAGES) + d + x; AllowedName(n) && Addressed(n, d)
  {
    var f := d + x;
    var n := (if attachment then ATTACHMENTS else IMAGES) + d + x;
    assert f[64..] == x && f[..64] == d;
    HexHasNoExtension(d);
    assert HasSuffix(f, x) && Trim(f, x) == d;
    assert ".jpg"[1] == 'j' && ".png"[1] == 'p' && ".pdf"[1] == 'p' && ".png"[2] == 'n' && ".pdf"[2] == 'd';
    assert f[65] == x[1] && f[66] == x[2];
    assert HasSuffix(f, ".jpg") <==> x == ".jpg";
    assert HasSuffix(f, ".png") <==> x == ".png";
    assert HasSuffix(f, ".pdf") <==> x == ".pdf";
    assert Address(f) == d;
    if attachment {
      assert n[|ATTACHMENTS|..] == f && n[..|ATTACHMENTS|] == ATTACHMENTS;
      assert n[0] == 'a' && IMAGES[0] == 'i';
    } else {
      assert n[|IMAGES|..] == f && n[..|IMAGES|] == IMAGES;
      assert n[0] == 'i' && ATTACHMENTS[0] == 'a';
    }
  }

  lemma HexHasNoExtension(d: string)
    requires AllHex(d)
    ensures !HasSuffix(d, ".jpg") && !HasSuffix(d, ".png") && !HasSuffix(d, ".pdf")
  {
    if |d| >= 4 {
      assert d[|d| - 4..][0] == d[|d| - 4];
      assert Hex(d[|d| - 4]) && ".jpg"[0] == '.' && ".png"[0] == '.' && ".pdf"[0] == '.';
    }
  }

  /** One digest with one extension, as the comment of the name check promises. */
  predicate DigestName(f: string, attachment: bool) {
    |f| == 68 && AllHex(f[..64]) && (f[64..] == ".png" || (attachment && (f[64..] == ".jpg" || f[64..] == ".pdf")))
  }

  /** What may follow the hexadecimal part: the extensions that come off one after the other. */
  function Tails(attachment: bool): set<string> {
    if attachment then {".jpg", ".png", ".pdf", ".png.jpg", ".pdf.jpg", ".pdf.png", ".pdf.png.jpg"} else {".png", ".pdf.png"}
  }

  predicate HexThen(f: string, x: string) { HasSuffix(f, x) && AllHex(f[..|f| - |x|]) }

  lemma TrimForms(f: string)
    ensures HasSuffix(f, ".jpg") ==> Trim(f, ".jpg") == f[..|f| - 4] && !HasSuffix(f, ".png") && !HasSuffix(f, ".pdf")
    ensures HasSuffix(f, ".png") ==> Trim(f, ".png") == f[..|f| - 4] && !HasSuffix(f, ".jpg") && !HasSuffix(f, ".pdf")
    ensures HasSuffix(f, ".pdf") ==> Trim(f, ".pdf") == f[..|f| - 4] && !HasSuffix(f, ".jpg") && !HasSuffix(f, ".png")
    ensures !HasSuffix(f, ".jpg") ==> Trim(f, ".jpg") == f
    ensures !HasSuffix(f, ".png") ==> Trim(f, ".png") == f
    ensures !HasSuffix(f, ".pdf") ==> Trim(f, ".pdf") == f
  {
    assert ".jpg"[1] == 'j' && ".png"[1] == 'p' && ".pdf"[1] == 'p' && ".png"[2] == 'n' && ".pdf"[2] == 'd';
  }

  /** Hexadecimal digits before `y` followed by `x`. */
  lemma HexThenTwo(f: string, y: string, x: string)
    requires HasSuffix(f, x)
    ensures HexThen(f, y + x) <==> HexThen(f[..|f| - |x|], y)
  {
    var g := f[..|f| - |x|];
    assert f == g + x;
    if HasSuffix(g, y) {
      assert g == g[..|g| - |y|] + y;
      assert f == g[..|g| - |y|] + (y + x);
      assert f[..|f| - |y + x|] == g[..|g| - |y|];
    }
    if HasSuffix(f, y + x) {
      assert f == f[..|f| - |y + x|] + (y + x);
      assert g == f[..|f| - |y + x|] + y;
    }
  }

  lemma HexThenNothing(f: string)
    ensures HexThen(f, "") <==> AllHex(f)
  {
    assert f[..|f|] == f;
  }

  /** A tail longer than one extension ends in its last one. */
  lemma TailEnds(f: string, y: string, x: string)
    ensures HexThen(f, y + x) ==> HasSuffix(f, x)
  {
    if HasSuffix(f, y + x) {
      assert f == f[..|f| - |y + x|] + y + x;
    }
  }

  lemma HexHasNoTail(f: string)
    ensures AllHex(f) ==> !HasSuffix(f, ".jpg") && !HasSuffix(f, ".png") && !HasSuffix(f, ".pdf")
  {
    if AllHex(f) {
      HexHasNoExtension(f);
    }
  }

  lemma AfterPdf(f: string)
    ensures AllHex(Trim(f, ".pdf")) <==> AllHex(f) || HexThen(f, ".pdf")
  {
    TrimForms(f);
    HexHasNoTail(f);
  }

  lemma AfterPng(f: string)
    ensures AllHex(Trim(Trim(f, ".png"), ".pdf"))
            <==> AllHex(f) || HexThen(f, ".pdf") || HexThen(f, ".png") || HexThen(f, ".pdf.png")
  {
    hide HexThen, AllHex;
    TrimForms(f);
    var g := Trim(f, ".png");
    AfterPdf(g);
    TailEnds(f, ".pdf", ".png");
    assert ".pdf" + ".png" == ".pdf.png" && "" + ".png" == ".png" && "" + ".pdf" == ".pdf";
    TailEnds(f, "", ".png");
    TailEnds(f, "", ".pdf");
    HexHasNoTail(f);
    if HasSuffix(f, ".png") {
      HexThenTwo(f, ".pdf", ".png");
      HexThenTwo(f, "", ".png");
      HexThenNothing(g);
    }
  }

  lemma AfterJpg(f: string)
    ensures AllHex(Address(f))
            <==> AllHex(f) || HexThen(f, ".pdf") || HexThen(f, ".png") || HexThen(f, ".pdf.png") || HexThen(f, ".jpg")
                 || HexThen(f, ".pdf.jpg") || HexThen(f, ".png.jpg") || HexThen(f, ".pdf.png.jpg")
  {
    hide HexThen, AllHex;
    TrimForms(f);
    AfterPng(Trim(f, ".jpg"));
    EndsOnce(f);
    if HasSuffix(f, ".jpg") {
      HexThenJpg(f);
    }
  }

  lemma HexThenJpg(f: string)
    requires HasSuffix(f, ".jpg")
    ensures HexThen(f, ".jpg") <==> AllHex(Trim(f, ".jpg"))
    ensures HexThen(f, ".pdf.jpg") <==> HexThen(Trim(f, ".jpg"), ".pdf")
    ensures HexThen(f, ".png.jpg") <==> HexThen(Trim(f, ".jpg"), ".png")
    ensures HexThen(f, ".pdf.png.jpg") <==> HexThen(Trim(f, ".jpg"), ".pdf.png")
  {
    hide HexThen, AllHex;
    assert "" + ".jpg" == ".jpg" && ".pdf" + ".jpg" == ".pdf.jpg" && ".png" + ".jpg" == ".png.jpg";
    assert ".pdf.png" + ".jpg" == ".pdf.png.jpg";
    HexThenTwo(f, "", ".jpg");
    HexThenTwo(f, ".pdf", ".jpg");
    HexThenTwo(f, ".png", ".jpg");
    HexThenTwo(f, ".pdf.png", ".jpg");
    HexThenNothing(Trim(f, ".jpg"));
  }

  /** A tail determines how the name ends. */
  lemma EndsOnce(f: string)
    ensures HexThen(f, ".jpg") || HexThen(f, ".pdf.jpg") || HexThen(f, ".png.jpg") || HexThen(f, ".pdf.png.jpg") ==> HasSuffix(f, ".jpg")
    ensures HexThen(f, ".png") || HexThen(f, ".pdf.png") ==> HasSuffix(f, ".png")
    ensures HexThen(f, ".pdf") ==> HasSuffix(f, ".pdf")
    ensures AllHex(f) ==> !HasSuffix(f, ".jpg") && !HasSuffix(f, ".png") && !HasSuffix(f, ".pdf")
  {
    hide HexThen, AllHex;
    assert "" + ".jpg" == ".jpg" && ".pdf" + ".jpg" == ".pdf.jpg" && ".png" + ".jpg" == ".png.jpg";
    assert ".pdf.png" + ".jpg" == ".pdf.png.jpg" && ".pdf" + ".png" == ".pdf.png" && "" + ".png" == ".png" && "" + ".pdf" == ".pdf";
    TailEnds(f, "", ".jpg");
    TailEnds(f, ".pdf", ".jpg");
    TailEnds(f, ".png", ".jpg");
    TailEnds(f, ".pdf.png", ".jpg");
    TailEnds(f, ".pdf", ".png");
    TailEnds(f, "", ".png");
    TailEnds(f, "", ".pdf");
    HexHasNoTail(f);
  }

  /** The name check accepts exactly 68 bytes that are hexadecimal digits before one of these
      tails: for images one extension or one more in front of it, for attachments up to three. */
  lemma ContentForms(f: string, attachment: bool)
    ensures ContentName(f, attachment) <==> |f| == 68 && exists x <- Tails(attachment) :: HexThen(f, x)
  {
    hide HexThen, AllHex, HasSuffix, Address, Tails;
    AfterJpg(f);
    EndsOnce(f);
    TrimForms(f);
    TailsListed(attachment);
  }

  lemma TailsListed(attachment: bool)
    ensures forall x: string :: x in Tails(attachment) <==>
              x == ".png" || x == ".pdf.png"
              || (attachment && (x == ".jpg" || x == ".pdf" || x == ".png.jpg" || x == ".pdf.jpg" || x == ".pdf.png.jpg"))
  {
  }

  /** An allowed content name is what the comment promises, one digest with one extension, if and
      only if its first 64 bytes are hexadecimal digits. */
  lemma DigestNameIff(n: string)
    requires AllowedName(n) && (HasPrefix(n, IMAGES) || HasPrefix(n, ATTACHMENTS))
    ensures |Base(n)| == 68
    ensures DigestName(Base(n), HasPrefix(n, ATTACHMENTS)) <==> AllHex(Base(n)[..64])
  {
    hide AllHex, Address, Trim;
    FixedNames();
    PrefixSplits(n);
    if HasPrefix(n, IMAGES) {
      assert n[0] == IMAGES[0] == 'i' && ATTACHMENTS[0] == 'a';
    } else {
      assert n[0] == ATTACHMENTS[0] == 'a' && IMAGES[0] == 'i';
    }
  }

  /** The name check alone is looser than its comment says: sixty hexadecimal digits with two
      extensions pass it.  The content address then rejects them, so that a whole archive is only
      accepted with one digest and one extension in every name. */
  lemma SixtyDigitsAllowed(h: string)
    requires |h| == 60 && AllHex(h)
    ensures AllowedName(IMAGES + h + ".pdf.png")
    ensures forall d: string | |d| == 64 && AllHex(d) :: !Addressed(IMAGES + h + ".pdf.png", d)
  {
    var f := h + ".pdf.png";
    var n := IMAGES + h + ".pdf.png";
    assert n[|IMAGES|..] == f && n[..|IMAGES|] == IMAGES;
    assert n[0] == 'i' && ATTACHMENTS[0] == 'a';
    assert f[64..] == ".png" && f[..64] == h + ".pdf" && f[65] == 'p';
    assert (h + ".pdf")[60..] == ".pdf" && (h + ".pdf")[..60] == h;
    assert ".jpg"[1] == 'j' && ".png"[2] == 'n' && ".pdf"[2] == 'd' && (h + ".pdf")[62] == 'd';
    assert Trim(f, ".jpg") == f && Trim(f, ".png") == h + ".pdf";
    assert Trim(h + ".pdf", ".pdf") == h;
    forall d: string | |d| == 64 && AllHex(d) ensures !Addressed(n, d) {
      assert (h + ".pdf")[60] == '.';
      assert Hex(d[60]);
    }
  }

  /** Together the two looks admit exactly one digest with one extension. */
  lemma AddressedIsCanonical(n: string, d: string)
    requires AllowedName(n) && Addressed(n, d)
    ensures HasPrefix(n, IMAGES) ==> n == IMAGES + d + ".png"
    ensures HasPrefix(n, ATTACHMENTS) ==> exists x <- {".jpg", ".png", ".pdf"} :: n == ATTACHMENTS + d + x
  {
    hide HasSuffix, AllHex;
    PrefixSplits(n);
    if HasPrefix(n, IMAGES) {
      assert n[0] == IMAGES[0] == 'i' && ATTACHMENTS[0] == 'a';
      var x := OneExtension(Base(n), d);
      assert n == IMAGES + (d + ".png");
    } else if HasPrefix(n, ATTACHMENTS) {
      assert n[0] == ATTACHMENTS[0] == 'a' && IMAGES[0] == 'i';
      var x := OneExtension(Base(n), d);
      assert n == ATTACHMENTS + (d + x) && ATTACHMENTS + (d + x) == ATTACHMENTS + d + x;
    }
  }

  lemma OneExtension(f: string, d: string) returns (x: string)
    requires |f| == 68 && |d| == 64
    ensures Address(f) == d ==> x in {".jpg", ".png", ".pdf"} && f == d + x
    ensures Trim(f, ".png") == d ==> f == d + ".png"
  {
    x := if HasSuffix(f, ".jpg") then ".jpg" else if HasSuffix(f, ".png") then ".png" else ".pdf";
    assert f == f[..64] + f[64..];
  }

  lemma {:induction false} ArchiveNames(files: map<string, Content>, names: seq<string>, manifest: Content)
    requires (set n <- names) == files.Keys && MANIFEST !in files && forall i, j :: 0 <= i < j < |names| ==> names[i] != names[j]
    ensures var a := Archive(files, names, manifest);
            Names(a) == files.Keys + {MANIFEST} && Body(a, MANIFEST) == Some(manifest)
            && (forall i, j :: 0 <= i < j < |a| ==> a[i].name != a[j].name)
            && forall n <- files.Keys :: Body(a, n) == Some(files[n])
  {
    var a := Archive(files, names, manifest);
    forall i | 0 <= i < |names| ensures names[i] in files {
      assert names[i] in set n <- names;
    }
    forall n <- files.Keys ensures n in Names(a) && Body(a, n) == Some(files[n]) {
      assert n in set x <- names;
      var i :| 0 <= i < |names| && names[i] == n;
      assert a[i] in a && a[i].name == n;
      BodyAt(a, i);
    }
    assert a[|names|] in a;
  }

  lemma DigestKeys(w: World, files: map<string, Content>)
    ensures Digests(w, files).Keys == files.Keys
  {
  }

  lemma FixedNames()
    ensures AllowedName(MANIFEST) && AllowedName(DATABASE) && !HasPrefix(DATABASE, IMAGES) && !HasPrefix(DATABASE, ATTACHMENTS)
    ensures !HasPrefix(MANIFEST, IMAGES) && !HasPrefix(MANIFEST, ATTACHMENTS) && MANIFEST != DATABASE
  {
    assert DATABASE[0] == 't' && MANIFEST[0] == 'm' && IMAGES[0] == 'i' && ATTACHMENTS[0] == 'a';
  }

  lemma DatabaseAddressed(d: string)
    ensures Addressed(DATABASE, d)
  {
    FixedNames();
  }
}

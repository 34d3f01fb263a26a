/**
 The sort keys of the activity feed, and which cursors made from them can be used to go on.  Names
 are limited to 120 characters by the tables they come from; the description of a correction is
 not limited.
 */
module FeedSort {
  import opened Int64
  import opened Options
  import opened Paging
  import opened Cursors
  import opened SortKeys

  datatype Column = Kind | TargetName | ActorName | DetailName | CategoryName | Amount | Status | OccurredAt

  datatype FeedRow = FeedRow(kind: string, target: string, actor: Option<string>, detail: Option<string>, category: Option<string>,
                             amount: int, status: string, occurredAt: string)

  // ---------------------------------------------------------------- key texts

  /** coalesce(nullif(x,''),char(1)) */
  function OrOne(x: Option<string>): string { if x == None || x == Some("") then "\U{0001}" else x.value }

  function Digits(n: nat): string {
    if n < 10 then [(n + '0' as int) as char] else Digits(n / 10) + [(n % 10 + '0' as int) as char]
  }

  /** CAST(n AS TEXT) */
  function Decimal(n: int): string { if n < 0 then "-" + Digits(-n) else Digits(n) }

  /** The sort expression of the column, as text. */
  function SortText(c: Column, r: FeedRow): string {
    match c
    case Kind => r.kind
    case TargetName => Lower(r.target)
    case ActorName => Lower(OrOne(r.actor))
    case DetailName => Lower(OrOne(r.detail))
    case CategoryName => Lower(OrOne(r.category))
    case Amount => Decimal(r.amount)
    case Status => r.status
    case OccurredAt => r.occurredAt
  }

  /** The name a query gives the column. */
  function ColumnName(c: Column): string {
    match c
    case Kind => "kind"
    case TargetName => "targetName"
    case ActorName => "actorName"
    case DetailName => "detailName"
    case CategoryName => "categoryName"
    case Amount => "amount"
    case Status => "status"
    case OccurredAt => "occurredAt"
  }

  predicate Short120(x: Option<string>) { x.Some? ==> |x.value| <= 120 }

  /** What the union arms and the tables below them guarantee. */
  predicate StoredRow(r: FeedRow) {
    r.kind in {"BOOKING", "PAYMENT", "REVERSAL", "ADJUSTMENT"} && r.status in {"POSTED", "REVERSED"}
    && 1 <= |r.target| <= 120 && Short120(r.actor) && Short120(r.category)
    && (r.kind != "ADJUSTMENT" ==> Short120(r.detail))
    && Representable(r.amount) && |r.occurredAt| == 24 && Plain(r.occurredAt)
  }

  // ---------------------------------------------------------------- sizes

  function Power(k: nat): nat { if k == 0 then 1 else 10 * Power(k - 1) }

  lemma {:induction false} DigitsLength(n: nat, k: nat)
    requires n < Power(k) && k >= 1
    ensures 1 <= |Digits(n)| <= k
    decreases n
  {
    if n >= 10 {
      assert Power(k) == 10 * Power(k - 1);
      assert Power(0) == 1;
      DigitsLength(n / 10, k - 1);
    }
  }

  lemma PowerNineteen()
    ensures Power(19) == 10_000_000_000_000_000_000
  {
    assert Power(4) == 10_000 && Power(8) == 10_000 * Power(4) && Power(12) == 10_000 * Power(8);
    assert Power(16) == 10_000 * Power(12) && Power(19) == 1_000 * Power(16);
  }

  lemma DecimalLength(n: int)
    requires Representable(n)
    ensures 1 <= |Decimal(n)| <= 20
  {
    PowerNineteen();
    DigitsLength(if n < 0 then -n else n, 19);
  }

  /** What a cursor's key for the amount is read back as. */
  function ParseDigits(s: string): Option<nat> {
    if s == "" then None
    else
      var n := |s| - 1;
      if !('0' <= s[n] <= '9') then None
      else if n == 0 then Some(s[n] as int - 48)
      else
        var before := ParseDigits(s[..n]);
        if before.None? then None else Some(10 * before.value + s[n] as int - 48)
  }

  function ParseInt(s: string): Option<int> {
    var negative := s != "" && s[0] == '-';
    var digits := ParseDigits(if negative then s[1..] else s);
    if digits.None? then None
    else
      var n: int := digits.value;
      Some(if negative then -n else n)
  }

  lemma {:induction false} DigitsParse(n: nat)
    ensures ParseDigits(Digits(n)) == Some(n) && Digits(n) != "" && '0' <= Digits(n)[0] <= '9'
  {
    if n >= 10 {
      DigitsParse(n / 10);
      var s := Digits(n);
      assert s[..|s| - 1] == Digits(n / 10);
    }
  }

  /** The key of an amount is read back as that amount. */
  lemma AmountReadsBack(r: FeedRow)
    ensures ParseInt(SortText(Amount, r)) == Some(r.amount)
  {
    DigitsParse(if r.amount < 0 then -r.amount else r.amount);
    if r.amount < 0 {
      assert ("-" + Digits(-r.amount))[1..] == Digits(-r.amount);
    }
  }

  // ---------------------------------------------------------------- cursors

  /** Whether the details of a row leave room for the cursor: at most 1000 bytes themselves, and at
      most 1420 with the identifier and the direction once they are escaped. */
  predicate DetailFits(q: Query, r: FeedRow, id: string) {
    var d := OrOne(r.detail);
    Bytes(d) <= 1000 && Width(d) + |id| + |q.direction| <= 1420
  }

  /** A cursor made from a feed row can always be used to go on, missing names included, except one
      sorted by details that take too much room. */
  lemma FeedCursorDecodes(c: Column, q: Query, r: FeedRow, id: string)
    requires StoredRow(r) && StoredId(id) && QueryFor(q, ColumnName(c))
    ensures Decodes(q, Row(SortText(c, r), id)) <==> c.DetailName? ==> DetailFits(q, r, id)
    ensures r.kind != "ADJUSTMENT" ==> DetailFits(q, r, id)
  {
    hide Width, Bytes, Payload, Plain, SortText, ColumnName, StoredRow, OrOne, Carries, Base64Length;
    var key := SortText(c, r);
    var d := OrOne(r.detail);
    ColumnNames(c);
    PlainQuery(q, ColumnName(c), id);
    ShortDetail(r);
    AtMost(d);
    if c.DetailName? {
      assert key == Lower(d) by { DetailKey(r); }
      LowerSize(d);
      assert Carries(Row(key, id)) <==> Bytes(d) <= 1000 by { CarriesText(key, id); }
      CursorFits(q, Row(key, id));
    } else {
      KeyLength(c, r);
      ShortTextsFit(q, ColumnName(c), Row(key, id));
    }
  }

  lemma CarriesText(key: string, id: string)
    requires 1 <= Bytes(key) && StoredId(id) && Bytes(id) == |id|
    ensures Carries(Row(key, id)) <==> Bytes(key) <= 1000
  {
  }

  lemma DetailKey(r: FeedRow)
    ensures SortText(DetailName, r) == Lower(OrOne(r.detail))
  {
  }

  lemma ColumnNames(c: Column)
    ensures Plain(ColumnName(c)) && |ColumnName(c)| <= 14 && (c.DetailName? ==> |ColumnName(c)| == 10)
  {
  }

  lemma ShortDetail(r: FeedRow)
    requires StoredRow(r)
    ensures |OrOne(r.detail)| >= 1 && (r.kind != "ADJUSTMENT" ==> |OrOne(r.detail)| <= 120)
  {
  }

  lemma KeyLength(c: Column, r: FeedRow)
    requires StoredRow(r) && !c.DetailName?
    ensures 1 <= |SortText(c, r)| <= 120
  {
    DecimalLength(r.amount);
    SameLength(r.target);
    SameLength(OrOne(r.actor));
    SameLength(OrOne(r.category));
  }

  function Ampersands(n: nat): string { if n == 0 then "" else "&" + Ampersands(n - 1) }

  lemma {:induction false} AmpersandsSize(n: nat)
    ensures Bytes(Ampersands(n)) == n && Width(Ampersands(n)) == 6 * n
  {
    if n > 0 {
      hide Width;
      AmpersandsSize(n - 1);
      assert Ampersands(n)[1..] == Ampersands(n - 1);
      WidthStep(Ampersands(n));
      CharWidth('&');
    }
  }

  /** Texts well below 1000 bytes can be too long for a cursor: 250 ampersands are. */
  lemma EscapedDetailStops(q: Query, r: FeedRow, id: string)
    requires StoredRow(r) && r.detail == Some(Ampersands(250)) && StoredId(id) && QueryFor(q, "detailName")
    ensures r.kind == "ADJUSTMENT" && Bytes(r.detail.value) == 250 && !Decodes(q, Row(SortText(DetailName, r), id))
  {
    hide Width, Bytes, Payload, Ampersands, Decodes, SortText;
    AmpersandsSize(250);
    AtMost(r.detail.value);
    assert ColumnName(DetailName) == "detailName";
    assert OrOne(r.detail) == r.detail.value;
    FeedCursorDecodes(DetailName, q, r, id);
  }

  // ---------------------------------------------------------------- walks

  /** Fetching the feed page after page completes, for every column and page size, unless it is
      sorted by details and a page but the last ends on a row whose details take too much room. */
  lemma FeedWalkCompletes(c: Column, q: Query, rows: seq<FeedRow>, s: seq<Key>, limit: nat, less: (Key, Key) -> bool)
    requires StrictTotal(less) && Sorted(s, less) && limit >= 1 && |rows| == |s| && QueryFor(q, ColumnName(c))
    requires forall i :: 0 <= i < |s| ==> StoredRow(rows[i]) && StoredId(s[i].id) && s[i].key == SortText(c, rows[i])
    ensures Walk(s, None, limit, less, k => Decodes(q, k), |s|)
            == if c.DetailName? && exists i :: 0 <= i < |s| - 1 && EndsPage(i, limit) && !DetailFits(q, rows[i], s[i].id) then None else Some(s)
  {
    hide StrictTotal, Sorted, Walk, SortText, Decodes, DetailFits, StoredRow, StoredId;
    var decodes := k => Decodes(q, k);
    PagesConcatenate(s, limit, less, decodes);
    forall i | 0 <= i < |s| ensures decodes(s[i]) <==> c.DetailName? ==> DetailFits(q, rows[i], s[i].id) {
      FeedCursorDecodes(c, q, rows[i], s[i].id);
      assert s[i] == Row(SortText(c, rows[i]), s[i].id);
    }
    PageEnds(s, limit, decodes);
  }
}

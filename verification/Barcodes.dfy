/**
 Product barcodes: check digits as in section 7.9 of the GS1 General Specifications, one
 14-digit key for every retail format, UPC-E expansion and its inverse (section 5.2), and the
 table that assigns each key to one product.
 */
module Barcodes {
  import opened Options

  datatype Format = EAN8 | EAN13 | UPCA | UPCE | CODE128 | Unsupported

  predicate IsDigit(c: char) { '0' <= c <= '9' }

  predicate AllDigits(s: string) { forall i :: 0 <= i < |s| ==> IsDigit(s[i]) }

  function Digit(c: char): int { c as int - '0' as int }

  // ---------------------------------------------------------------- check digits

  /** Weights from the right: 1 for the check digit, then 3, 1, 3, ... */
  function Weight(fromRight: nat): int { if fromRight % 2 == 0 then 1 else 3 }

  function Weighted(c: char, weight: int): int { Digit(c) * weight }

  function Total(s: string): int {
    if s == "" then 0 else Weighted(s[0], Weight(|s| - 1)) + Total(s[1..])
  }

  predicate MultipleOfTen(n: int) { n % 10 == 0 }

  predicate ValidGTIN(s: string, length: nat) { |s| == length && AllDigits(s) && MultipleOfTen(Total(s)) }

  /** Sums from the right, starting with weight 3 next to the check digit, and compares what is
      missing to the next ten with the check digit. */
  method CheckGTIN(value: string, length: nat) returns (ok: bool)
    requires length > 0
    ensures ok <==> ValidGTIN(value, length)
  {
    if |value| != length || !AllDigits(value) {
      return false;
    }
    var sum := WeightedSum(value);
    var check := Digit(value[|value| - 1]);
    CheckDigit(sum, check);
    ok := (10 - sum % 10) % 10 == check;
  }

  method WeightedSum(value: string) returns (sum: int)
    requires value != ""
    ensures sum + Digit(value[|value| - 1]) == Total(value)
  {
    hide Total, Weight, Weighted, Digit;
    var last := |value| - 1;
    sum := 0;
    var weight, index := 3, last - 1;
    TotalTail(value, last);
    FirstWeights();
    while index >= 0
      invariant -1 <= index < last
      invariant weight == Weight(last - index)
      invariant Total(value[index + 1..]) == sum + Digit(value[last])
      decreases index
    {
      TotalTail(value, index);
      WeightsAlternate(last - index);
      sum := sum + Weighted(value[index], weight);
      weight := 4 - weight;
      index := index - 1;
    }
    assert value[0..] == value;
  }

  lemma FirstWeights()
    ensures Weight(0) == 1 && Weight(1) == 3
  {
  }

  lemma TotalTail(s: string, i: nat)
    requires i < |s|
    ensures Total(s[i..]) == Weighted(s[i], Weight(|s| - 1 - i)) + Total(s[i + 1..])
    ensures i == |s| - 1 ==> Total(s[i..]) == Digit(s[i])
  {
    assert s[i..][1..] == s[i + 1..];
  }

  lemma CheckDigit(sum: int, check: int)
    requires 0 <= check <= 9
    ensures (10 - sum % 10) % 10 == check <==> MultipleOfTen(sum + check)
  {
  }

  lemma {:induction false} TotalUpdate(s: string, i: nat, c: char)
    requires i < |s|
    ensures Total(s[i := c]) == Total(s) + (Digit(c) - Digit(s[i])) * Weight(|s| - 1 - i)
  {
    if i == 0 {
      assert s[i := c][1..] == s[1..];
    } else {
      assert s[i := c][1..] == s[1..][i - 1 := c];
      TotalUpdate(s[1..], i - 1, c);
    }
  }

  /** The digits at an even distance from the right, and those at an odd distance. */
  function Near(s: string): int
    decreases |s|
  {
    if s == "" then 0 else s[|s| - 1] as int - 48 + Far(s[..|s| - 1])
  }

  function Far(s: string): int
    decreases |s|
  {
    if s == "" then 0 else Near(s[..|s| - 1])
  }

  lemma {:induction false} NearFarFirst(s: string)
    requires s != ""
    ensures Near(s) == Near(s[1..]) + if |s| % 2 == 1 then s[0] as int - 48 else 0
    ensures Far(s) == Far(s[1..]) + if |s| % 2 == 0 then s[0] as int - 48 else 0
    decreases |s|
  {
    var init := s[..|s| - 1];
    if |s| > 1 {
      NearFarFirst(init);
      assert init[1..] == s[1..][..|s| - 2] && init[0] == s[0];
    }
  }

  /** The weighted total read from the right: every digit counts once, every second one, beginning
      beside the check digit, three times. */
  lemma {:induction false} TotalAlternates(s: string)
    ensures Total(s) == Near(s) + 3 * Far(s)
  {
    if s != "" {
      NearFarFirst(s);
      TotalAlternates(s[1..]);
    }
  }

  /** A number has a valid check digit if and only if it consists of that many of the ten digits and
      its alternating total is a multiple of ten. */
  lemma ValidGTINIff(s: string, length: nat)
    ensures ValidGTIN(s, length) <==>
              |s| == length && (forall i :: 0 <= i < |s| ==> '0' <= s[i] <= '9') && (Near(s) + 3 * Far(s)) % 10 == 0
  {
    TotalAlternates(s);
  }

  /** Whatever the other digits are, exactly one check digit completes them. */
  lemma CheckDigitExists(s: string, c: char)
    requires (forall i :: 0 <= i < |s| ==> '0' <= s[i] <= '9') && '0' <= c <= '9'
    ensures ValidGTIN(s + [c], |s| + 1) <==> c as int - 48 == (10 - (3 * Near(s) + Far(s)) % 10) % 10
  {
    hide ValidGTIN, Near, Far;
    var t, d := 3 * Near(s) + Far(s), c as int - 48;
    ValidGTINIff(s + [c], |s| + 1);
    assert Near(s + [c]) + 3 * Far(s + [c]) == t + d by { LastDigit(s, c); }
    CheckDigit(t, d);
    hide *;
    assert (t + d) % 10 == 0 <==> d == (10 - t % 10) % 10;
  }

  lemma LastDigit(s: string, c: char)
    ensures Near(s + [c]) == c as int - 48 + Far(s) && Far(s + [c]) == Near(s)
  {
    assert (s + [c])[..|s|] == s;
  }

  /** Any change of one digit is detected. */
  lemma SingleErrorDetected(s: string, length: nat, i: nat, c: char)
    requires ValidGTIN(s, length) && i < |s| && IsDigit(c) && c != s[i]
    ensures !ValidGTIN(s[i := c], length)
  {
    TotalUpdate(s, i, c);
    var d := Digit(c) - Digit(s[i]);
    assert -9 <= d <= 9 && d != 0;
  }

  /** Swapping two adjacent digits is detected unless they are equal or differ by five. */
  lemma AdjacentSwapDetected(s: string, length: nat, i: nat)
    requires ValidGTIN(s, length) && i + 1 < |s|
    ensures ValidGTIN(s[i := s[i + 1]][i + 1 := s[i]], length)
            <==> Digit(s[i]) - Digit(s[i + 1]) in {-5, 0, 5}
  {
    hide Total, Weight;
    var t := s[i := s[i + 1]];
    TotalUpdate(s, i, s[i + 1]);
    TotalUpdate(t, i + 1, s[i]);
    WeightsAlternate(|s| - 2 - i);
    SwapArithmetic(Total(s), Digit(s[i + 1]) - Digit(s[i]), Weight(|s| - 2 - i));
  }

  lemma WeightsAlternate(n: nat)
    ensures Weight(n + 1) == 4 - Weight(n) && Weight(n) in {1, 3}
  {
  }

  lemma SwapArithmetic(total: int, d: int, w: int)
    requires total % 10 == 0 && -9 <= d <= 9 && w in {1, 3}
    ensures (total + d * (4 - w) + (-d) * w) % 10 == 0 <==> -d in {-5, 0, 5}
  {
    if w == 1 {
      assert (total + d * (4 - w) + (-d) * w) == total + 2 * d;
    } else {
      assert (total + d * (4 - w) + (-d) * w) == total - 2 * d;
    }
  }

  function Zeros(n: nat): string { if n == 0 then "" else "0" + Zeros(n - 1) }

  lemma {:induction false} PaddingKeepsTotal(n: nat, s: string)
    ensures |Zeros(n)| == n && (AllDigits(s) ==> AllDigits(Zeros(n) + s)) && Total(Zeros(n) + s) == Total(s)
  {
    if n == 0 {
      assert Zeros(0) + s == s;
    } else {
      PaddingKeepsTotal(n - 1, s);
      assert (Zeros(n) + s)[1..] == Zeros(n - 1) + s;
    }
  }

  // ---------------------------------------------------------------- UPC-E

  /** The ten middle digits a six-digit zero-suppressed code stands for. */
  function Expand(d: string): (e: string)
    requires |d| == 6
    ensures |e| == 10
  {
    if d[5] in "012" then [d[0], d[1], d[5], '0', '0', '0', '0', d[2], d[3], d[4]]
    else if d[5] == '3' then [d[0], d[1], d[2], '0', '0', '0', '0', '0', d[3], d[4]]
    else if d[5] == '4' then [d[0], d[1], d[2], d[3], '0', '0', '0', '0', '0', d[4]]
    else [d[0], d[1], d[2], d[3], d[4], '0', '0', '0', '0', d[5]]
  }

  predicate ZerosBetween(u: string, from: nat, to: nat)
    requires to <= |u|
  {
    forall i :: from <= i < to ==> u[i] == '0'
  }

  /** Zero suppression: the first rule that applies to the ten digits. */
  function Suppress(u: string): Option<string>
    requires |u| == 10
  {
    if u[2] in "012" && ZerosBetween(u, 3, 7) then Some([u[0], u[1], u[7], u[8], u[9], u[2]])
    else if ZerosBetween(u, 3, 8) then Some([u[0], u[1], u[2], u[8], u[9], '3'])
    else if ZerosBetween(u, 4, 9) then Some([u[0], u[1], u[2], u[3], u[9], '4'])
    else if ZerosBetween(u, 5, 9) && u[9] in "56789" then Some([u[0], u[1], u[2], u[3], u[4], u[9]])
    else None
  }

  /** The codes zero suppression produces. */
  predicate Canonical(d: string)
    requires |d| == 6
  {
    (d[5] == '3' ==> d[2] !in "012") && (d[5] == '4' ==> d[3] != '0') && (d[5] in "56789" ==> d[4] != '0')
  }

  /** Expansion undoes zero suppression, and what suppression produces is canonical. */
  lemma ExpandSuppress(u: string)
    requires |u| == 10 && AllDigits(u) && Suppress(u).Some?
    ensures |Suppress(u).value| == 6 && AllDigits(Suppress(u).value) && Canonical(Suppress(u).value)
    ensures Expand(Suppress(u).value) == u
  {
  }

  /** Suppression inverts expansion exactly on the canonical codes. */
  lemma SuppressExpand(d: string)
    requires |d| == 6 && AllDigits(d)
    ensures AllDigits(Expand(d)) && Suppress(Expand(d)).Some?
    ensures Suppress(Expand(d)) == Some(d) <==> Canonical(d)
  {
    var u := Expand(d);
    assert d == [d[0], d[1], d[2], d[3], d[4], d[5]];
    assert u[2] == '0' || u[2] != '0';
    assert u[3] == '0' || u[3] != '0';
    assert u[4] == '0' || u[4] != '0';
    assert IsDigit(d[2]) && IsDigit(d[3]) && IsDigit(d[4]) && IsDigit(d[5]);
  }

  /** The canonical code with the same expansion, read off the digits: a code that ends in 3, 4 or
      5 to 9 is not canonical when the digit its rule leaves open is one an earlier rule covers. */
  function CanonicalForm(d: string): (e: string)
    requires |d| == 6
    ensures |e| == 6
  {
    if d[5] in "012" then d
    else if d[5] == '3' then if d[2] in "012" then [d[0], d[1], '0', d[3], d[4], d[2]] else d
    else if d[5] == '4' then if d[3] == '0' then Shorter(d, d[4]) else d
    else if d[4] == '0' then if d[3] == '0' then Shorter(d, d[5]) else [d[0], d[1], d[2], d[3], d[5], '4']
    else d
  }

  /** Three leading digits, six zeros and one last digit. */
  function Shorter(d: string, last: char): (e: string)
    requires |d| == 6
    ensures |e| == 6
  {
    if d[2] in "012" then [d[0], d[1], '0', '0', last, d[2]] else [d[0], d[1], d[2], '0', last, '3']
  }

  lemma CanonicalFormSame(d: string)
    requires |d| == 6 && AllDigits(d)
    ensures AllDigits(CanonicalForm(d)) && Canonical(CanonicalForm(d)) && Expand(CanonicalForm(d)) == Expand(d)
    ensures CanonicalForm(d) == d <==> Canonical(d)
  {
    assert d == [d[0], d[1], d[2], d[3], d[4], d[5]];
    assert IsDigit(d[0]) && IsDigit(d[1]) && IsDigit(d[2]) && IsDigit(d[3]) && IsDigit(d[4]) && IsDigit(d[5]);
  }

  /** Two zero-suppressed codes stand for the same article exactly when their digits give the same
      canonical form; canonical codes never collide, and every other code collides with exactly
      one of them. */
  lemma CollisionsExactly(a: string, b: string)
    requires |a| == 6 && |b| == 6 && AllDigits(a) && AllDigits(b)
    ensures Expand(a) == Expand(b) <==> CanonicalForm(a) == CanonicalForm(b)
    ensures Canonical(b) ==> (Expand(a) == Expand(b) <==> b == CanonicalForm(a))
  {
    hide Suppress, Expand, Canonical, AllDigits, CanonicalForm;
    CanonicalFormSame(a);
    CanonicalFormSame(b);
    SuppressExpand(CanonicalForm(a));
    SuppressExpand(CanonicalForm(b));
  }

  // ---------------------------------------------------------------- keys

  /** The GTIN a retail value stands for, without its padding. */
  function Gtin(format: Format, value: string): Option<string> {
    match format
    case EAN8 => if ValidGTIN(value, 8) then Some(value) else None
    case EAN13 => if ValidGTIN(value, 13) then Some(value) else None
    case UPCA => if ValidGTIN(value, 12) then Some(value) else None
    case UPCE =>
      if |value| == 8 && AllDigits(value) && value[0] in "01" && ValidGTIN(value[..1] + Expand(value[1..7]) + value[7..], 12)
      then Some(value[..1] + Expand(value[1..7]) + value[7..]) else None
    case _ => None
  }

  predicate Printable(value: string) {
    1 <= |value| <= 80 && forall i :: 0 <= i < |value| ==> 32 <= value[i] as int <= 126
  }

  function Padded(gtin: string): string { Zeros(if |gtin| <= 14 then 14 - |gtin| else 0) + gtin }

  datatype Code = Code(format: Format, value: string)

  predicate KeyOf(c: Code, key: string) {
    match c.format
    case CODE128 => Printable(c.value) && key == "CODE128:" + c.value
    case Unsupported => false
    case _ => Gtin(c.format, c.value).Some? && key == "GTIN:" + Padded(Gtin(c.format, c.value).value)
  }

  /** Validates a trimmed value and returns its lookup key. */
  method BarcodeKey(format: Format, value: string) returns (key: Option<string>)
    ensures format in {EAN8, EAN13, UPCA, UPCE} ==>
              key == match Gtin(format, value) case None => None case Some(gtin) => Some("GTIN:" + Padded(gtin))
    ensures format == CODE128 ==> key == if Printable(value) then Some("CODE128:" + value) else None
    ensures format == Unsupported ==> key == None
    ensures key.Some? <==>
              match format
              case EAN8 => ValidGTIN(value, 8)
              case EAN13 => ValidGTIN(value, 13)
              case UPCA => ValidGTIN(value, 12)
              case UPCE =>
                |value| == 8 && (forall i :: 0 <= i < 8 ==> '0' <= value[i] <= '9') && value[0] <= '1'
                && ValidGTIN(value[..1] + Expand(value[1..7]) + value[7..], 12)
              case CODE128 => 1 <= |value| <= 80 && forall i :: 0 <= i < |value| ==> ' ' <= value[i] <= '~'
              case Unsupported => false
    ensures match key case Some(k) => KeyOf(Code(format, value), k) case None => forall k: string :: !KeyOf(Code(format, value), k)
  {
    match format {
      case EAN8 =>
        var ok := CheckGTIN(value, 8);
        PaddingUnfolds(value);
        key := if ok then Some("GTIN:" + "000000" + value) else None;
      case EAN13 =>
        var ok := CheckGTIN(value, 13);
        PaddingUnfolds(value);
        key := if ok then Some("GTIN:" + "0" + value) else None;
      case UPCA =>
        var ok := CheckGTIN(value, 12);
        PaddingUnfolds(value);
        key := if ok then Some("GTIN:" + "00" + value) else None;
      case UPCE =>
        if |value| != 8 || !AllDigits(value) || (value[0] != '0' && value[0] != '1') {
          return None;
        }
        var upcA := value[..1] + Expand(value[1..7]) + value[7..];
        var ok := CheckGTIN(upcA, 12);
        PaddingUnfolds(upcA);
        key := if ok then Some("GTIN:" + "00" + upcA) else None;
      case CODE128 =>
        key := if Printable(value) then Some("CODE128:" + value) else None;
      case Unsupported =>
        key := None;
    }
  }

  lemma PaddingUnfolds(s: string)
    ensures |s| == 8 ==> "GTIN:" + Padded(s) == "GTIN:" + "000000" + s
    ensures |s| == 13 ==> "GTIN:" + Padded(s) == "GTIN:" + "0" + s
    ensures |s| == 12 ==> "GTIN:" + Padded(s) == "GTIN:" + "00" + s
  {
    assert Zeros(1) == "0" && Zeros(2) == "00";
    assert Zeros(4) == "00" + Zeros(2) && Zeros(6) == "00" + Zeros(4);
  }

  /** A UPC-A and the EAN-13 that carries it with a leading zero name the same article, and so do
      a UPC-E and its expansion. */
  lemma EquivalentRepresentations(v: string)
    requires Gtin(UPCA, v).Some?
    ensures Gtin(EAN13, "0" + v).Some? && Padded("0" + v) == Padded(v)
    ensures v[0] in "01" && Suppress(v[1..11]).Some? ==>
              var e := v[..1] + Suppress(v[1..11]).value + v[11..];
              Gtin(UPCE, e).Some? && Gtin(UPCE, e).value == v
  {
    assert ("0" + v)[1..] == v;
    assert Zeros(2) + v == Zeros(1) + ("0" + v) by { assert Zeros(1) == "0" && Zeros(2) == "00"; }
    if v[0] in "01" && Suppress(v[1..11]).Some? {
      ExpandSuppress(v[1..11]);
      var e := v[..1] + Suppress(v[1..11]).value + v[11..];
      assert e[1..7] == Suppress(v[1..11]).value && e[..1] == v[..1] && e[7..] == v[11..];
      assert v == v[..1] + v[1..11] + v[11..];
    }
  }

  // ---------------------------------------------------------------- a product's codes

  datatype Normalized = Codes(keys: seq<string>) | TooMany | BadValue(index: nat) | Repeated(index: nat)

  predicate Retail(f: Format) { f in {EAN8, EAN13, UPCA, UPCE} }

  /** Every accepted retail code has the prefix and fourteen digits with a valid check digit as its
      key. */
  lemma KeysAreGTINs(c: Code, key: string)
    requires KeyOf(c, key) && Retail(c.format)
    ensures |key| == 19 && key[..5] == "GTIN:" && ValidGTIN(key[5..], 14) && key[5..] == Padded(Gtin(c.format, c.value).value)
  {
    var x := Gtin(c.format, c.value).value;
    PaddingKeepsTotal(14 - |x|, x);
    assert key[5..] == Padded(x);
  }

  /** Keys across all formats: equal exactly for two retail codes with the same zero-padded GTIN, or
      for the same Code 128 text; a retail key is never a Code 128 key. */
  lemma KeysAgreeIff(c: Code, k: string, d: Code, l: string)
    requires KeyOf(c, k) && KeyOf(d, l)
    ensures k == l <==>
              (Retail(c.format) && Retail(d.format) && Padded(Gtin(c.format, c.value).value) == Padded(Gtin(d.format, d.value).value))
              || (c.format == CODE128 && d.format == CODE128 && c.value == d.value)
  {
    hide Gtin, Padded, Printable;
    if c.format == CODE128 {
      assert k == "CODE128:" + c.value && k[0] == 'C' && k[8..] == c.value;
    } else {
      assert k == "GTIN:" + Padded(Gtin(c.format, c.value).value) && k[0] == 'G' && k[5..] == Padded(Gtin(c.format, c.value).value);
    }
    if d.format == CODE128 {
      assert l == "CODE128:" + d.value && l[0] == 'C' && l[8..] == d.value;
    } else {
      assert l == "GTIN:" + Padded(Gtin(d.format, d.value).value) && l[0] == 'G' && l[5..] == Padded(Gtin(d.format, d.value).value);
    }
  }

  /** At most fifty codes, each valid, no key twice; the first offending index is reported. */
  method NormalizeBarcodes(input: seq<Code>) returns (r: Normalized)
    ensures r.TooMany? <==> |input| > 50
    ensures r.Codes? ==> |r.keys| == |input| && (forall i :: 0 <= i < |input| ==> KeyOf(input[i], r.keys[i]))
                         && forall i, j :: 0 <= i < j < |input| ==> r.keys[i] != r.keys[j]
    ensures r.BadValue? ==> r.index < |input| && forall key: string :: !KeyOf(input[r.index], key)
    ensures r.Repeated? ==> r.index < |input|
                            && exists key: string, i :: 0 <= i < r.index && KeyOf(input[i], key) && KeyOf(input[r.index], key)
  {
    if |input| > 50 {
      return TooMany;
    }
    var keys: seq<string>, seen: set<string> := [], {};
    for index := 0 to |input|
      invariant |keys| == index && forall i :: 0 <= i < index ==> KeyOf(input[i], keys[i]) && keys[i] in seen
      invariant forall k <- seen :: exists i :: 0 <= i < index && keys[i] == k
      invariant forall i, j :: 0 <= i < j < index ==> keys[i] != keys[j]
    {
      var key := BarcodeKey(input[index].format, input[index].value);
      if key == None {
        return BadValue(index);
      }
      assert KeyOf(input[index], key.value);
      if key.value in seen {
        return Repeated(index);
      }
      seen := seen + {key.value};
      keys := keys + [key.value];
    }
    r := Codes(keys);
  }

  type Product = nat

  /** The group's key table: each key belongs to one product. */
  class BarcodeTable {
    var owner: map<string, Product>

    /** Replaces the codes of one product; a key of another product refuses the whole change. */
    method ReplaceProductBarcodes(product: Product, keys: seq<string>) returns (ok: bool)
      requires forall i, j :: 0 <= i < j < |keys| ==> keys[i] != keys[j]
      modifies this
      ensures ok <==> forall k <- keys :: k in old(owner) ==> old(owner)[k] == product
      ensures !ok ==> owner == old(owner)
      ensures ok ==> forall k: string :: (k in owner && owner[k] == product <==> k in keys)
      ensures ok ==> forall k: string | k !in keys ::
                (k in owner <==> k in old(owner) && old(owner)[k] != product) && (k in owner ==> owner[k] == old(owner)[k])
    {
      var before := owner;
      owner := map k <- owner.Keys | owner[k] != product :: owner[k];
      ghost var cleared := owner;
      for i := 0 to |keys|
        invariant forall k <- keys[..i] :: k !in cleared
        invariant forall k: string :: k in owner <==> k in cleared || k in keys[..i]
        invariant forall k <- owner.Keys :: owner[k] == if k in keys[..i] then product else cleared[k]
      {
        if keys[i] in owner && owner[keys[i]] != product {
          assert keys[i] in keys && keys[i] in before && before[keys[i]] != product;
          owner := before;
          return false;
        }
        owner := owner[keys[i] := product];
        assert keys[..i + 1] == keys[..i] + [keys[i]];
      }
      assert keys[..|keys|] == keys;
      ok := true;
    }
  }
}

/**
 What the sorted lists share: the text SQLite compares for a name, and the cursor a query can make
 from it.
 */
module SortKeys {
  import opened Cursors

  /** SQLite's lower() folds the letters of ASCII only. */
  function LowerChar(c: char): char { if 'A' <= c <= 'Z' then (c as int + 32) as char else c }

  function Lower(s: string): string { if s == "" then "" else [LowerChar(s[0])] + Lower(s[1..]) }

  /** Position by position: the twenty-six capital letters of ASCII become small ones, everything
      else stays. */
  lemma {:induction false} LowerFolds(s: string, i: nat)
    requires i < |s|
    ensures |Lower(s)| == |s|
    ensures if 65 <= s[i] as int <= 90 then Lower(s)[i] as int == s[i] as int + 32 else Lower(s)[i] == s[i]
  {
    if i > 0 {
      LowerFolds(s[1..], i - 1);
    } else {
      SameLength(s[1..]);
    }
  }

  lemma {:induction false} LowerSize(s: string)
    ensures Bytes(Lower(s)) == Bytes(s) && Width(Lower(s)) == Width(s)
  {
    hide Width;
    if s != "" {
      LowerSize(s[1..]);
      assert Lower(s)[1..] == Lower(s[1..]);
      WidthStep(s);
      WidthStep(Lower(s));
      CharWidth(s[0]);
      CharWidth(LowerChar(s[0]));
    }
  }

  lemma {:induction false} SameLength(s: string)
    ensures |Lower(s)| == |s|
  {
    if s != "" {
      SameLength(s[1..]);
    }
  }

  predicate StoredId(id: string) { 1 <= |id| <= 200 && Plain(id) }

  /** A normalized query for a column: a digest, the column's name and a direction. */
  predicate QueryFor(q: Query, column: string) {
    |q.fingerprint| == 64 && Plain(q.fingerprint) && q.sort == column && q.direction in {"asc", "desc"}
  }

  /** A text of 1 to 120 characters always goes into a cursor, whatever it has to be escaped to. */
  lemma ShortTextsFit(q: Query, column: string, r: Key)
    requires QueryFor(q, column) && StoredId(r.id) && Plain(column) && |column| <= 14 && 1 <= |r.key| <= 120
    ensures Decodes(q, r)
  {
    hide Width, Payload, Bytes;
    AtMost(r.key);
    PlainQuery(q, column, r.id);
    CursorFits(q, r);
  }

  lemma PlainQuery(q: Query, column: string, id: string)
    requires QueryFor(q, column) && Plain(column) && Plain(id)
    ensures Width(q.fingerprint) == 64 && Width(q.sort) == |column| && Width(q.direction) == |q.direction| <= 4
    ensures Width(id) == |id| == Bytes(id)
  {
    hide Width, Bytes, Plain;
    PlainWidth(q.fingerprint);
    PlainWidth(column);
    PlainWidth(id);
    Directions();
    PlainWidth(q.direction);
  }

  lemma Directions()
    ensures Plain("asc") && Plain("desc")
  {
  }
}

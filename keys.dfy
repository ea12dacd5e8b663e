/**
 * The trackers key their `sources` dictionary by `str(i)`, the decimal
 * rendering of an item's integer id.  This module gives that rendering,
 * an inverse for it, and the set of keys still ahead of a cursor, which is
 * what makes the resume loops terminate.
 */
module Keys {
  import opened Wrappers

  function Digit(d: nat): char
    requires d < 10
  {
    ('0' as int + d) as char
  }

  function DigitValue(c: char): Option<nat> {
    if '0' <= c <= '9' then Some(c as int - '0' as int) else None
  }

  /** `str(n)` for a non-negative integer: its decimal digits, most significant first. */
  function KeyOf(n: nat): (s: string)
    ensures |s| > 0
    ensures forall i :: 0 <= i < |s| ==> '0' <= s[i] <= '9'
    ensures |s| > 1 ==> s[0] != '0'
  {
    if n < 10 then [Digit(n)] else KeyOf(n / 10) + [Digit(n % 10)]
  }

  /** The number a string of decimal digits denotes; None for anything else. */
  function ParseKey(s: string): Option<nat> {
    if |s| == 0 then None
    else
      match DigitValue(s[|s| - 1])
      case None => None
      case Some(d) =>
        if |s| == 1 then Some(d)
        else
          match ParseKey(s[..|s| - 1])
          case None => None
          case Some(v) => Some(10 * v + d)
  }

  lemma {:induction false} ParseKeyOf(n: nat)
    ensures ParseKey(KeyOf(n)) == Some(n)
  {
    if n >= 10 {
      ParseKeyOf(n / 10);
      var s := KeyOf(n);
      assert s[..|s| - 1] == KeyOf(n / 10);
    }
  }

  /** Distinct ids never share a key. */
  lemma KeyOfInjective()
    ensures forall m: nat, n: nat :: KeyOf(m) == KeyOf(n) ==> m == n
  {
    forall m: nat, n: nat ensures KeyOf(m) == KeyOf(n) ==> m == n {
      ParseKeyOf(m);
      ParseKeyOf(n);
    }
  }

  /** The keys of `keys` that name an id at or after `cursor`. */
  function Pending(keys: set<string>, cursor: nat): (p: set<string>)
    ensures p <= keys
  {
    set k | k in keys && ParseKey(k).Some? && ParseKey(k).value >= cursor
  }

  /** Moving the cursor past a present key strictly shrinks what lies ahead. */
  lemma PendingShrinks(keys: set<string>, cursor: nat)
    requires KeyOf(cursor) in keys
    ensures Pending(keys, cursor + 1) < Pending(keys, cursor)
    ensures |Pending(keys, cursor + 1)| < |Pending(keys, cursor)|
  {
    ParseKeyOf(cursor);
    assert KeyOf(cursor) in Pending(keys, cursor);
    assert KeyOf(cursor) !in Pending(keys, cursor + 1);
    var ahead, now := Pending(keys, cursor + 1), Pending(keys, cursor);
    assert now == ahead + (now - ahead) && ahead * (now - ahead) == {};
    assert KeyOf(cursor) in now - ahead;
  }
}

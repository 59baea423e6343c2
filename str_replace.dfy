/**
  Python's `str.replace(old, new, count)` for a one-character `old` and `new`:
  the first `count` occurrences of `old`, from the left, become `new`.
 */
module StrReplace {

  /** The number of occurrences of `c` in `s`. */
  function Occurrences(s: string, c: char): (n: nat)
    ensures n <= |s|
    ensures n == 0 <==> c !in s
  {
    if s == [] then 0
    else (if s[0] == c then 1 else 0) + Occurrences(s[1..], c)
  }

  function Min(a: nat, b: nat): (m: nat) {
    if a <= b then a else b
  }

  function Replace(s: string, from: char, to: char, count: nat): (r: string)
    ensures |r| == |s|
  {
    if s == [] then []
    else if s[0] == from && count > 0 then [to] + Replace(s[1..], from, to, count - 1)
    else [s[0]] + Replace(s[1..], from, to, count)
  }

  /**
    Position by position: a character becomes `to` when it is `from` and fewer
    than `count` occurrences of `from` stand before it; every other character stays.
   */
  lemma {:induction false} ReplaceAt(s: string, from: char, to: char, count: nat, i: nat)
    requires i < |s|
    ensures Replace(s, from, to, count)[i] ==
              if s[i] == from && Occurrences(s[..i], from) < count then to else s[i]
  {
    if i == 0 {
      assert s[..0] == [];
    } else {
      var count' := if s[0] == from && count > 0 then count - 1 else count;
      ReplaceAt(s[1..], from, to, count', i - 1);
      assert s[..i][1..] == s[1..][..i - 1];
      assert s[..i][0] == s[0];
    }
  }

  /** When `from` and `to` differ, exactly `Min(count, n)` of the `n` occurrences are replaced. */
  lemma {:induction false} ReplaceOccurrences(s: string, from: char, to: char, count: nat)
    requires from != to
    ensures Occurrences(Replace(s, from, to, count), from) ==
              Occurrences(s, from) - Min(count, Occurrences(s, from))
    ensures Occurrences(Replace(s, from, to, count), to) ==
              Occurrences(s, to) + Min(count, Occurrences(s, from))
  {
    if s != [] {
      var count' := if s[0] == from && count > 0 then count - 1 else count;
      ReplaceOccurrences(s[1..], from, to, count');
      var r := Replace(s, from, to, count);
      assert r[1..] == Replace(s[1..], from, to, count');
    }
  }
}

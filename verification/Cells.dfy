/** SQLite cells and the two quoting functions the snapshots mix: SQLite's `quote()` and the Rust helper. */
module Cells {
  import opened Prelude
  import opened Bytes

  datatype Cell = Null | Int(n: int) | Text(s: string)

  const NUL: char := 0 as char

  predicate NulFree(s: string) {
    NUL !in s
  }

  /** SQLite's `quote()` sees a text only up to its first NUL. */
  function UpToNul(s: string): (r: string)
    ensures NulFree(r)
    ensures NulFree(s) ==> r == s
  {
    if s == [] || s[0] == NUL then [] else [s[0]] + UpToNul(s[1..])
  }

  function Visible(c: Cell): Cell {
    match c
    case Text(s) => Text(UpToNul(s))
    case _ => c
  }

  /** `replace('\'', "''")`. */
  function Doubled(s: string): string {
    if s == [] then [] else (if s[0] == '\'' then "''" else [s[0]]) + Doubled(s[1..])
  }

  /** The Rust helper `quoted`. */
  function Quoted(s: string): string {
    "'" + Doubled(s) + "'"
  }

  /** SQLite's `quote()`. */
  function Quote(c: Cell): string {
    match c
    case Null => "NULL"
    case Int(n) => Decimal(n)
    case Text(s) => Quoted(UpToNul(s))
  }

  function QuoteRow(row: seq<Cell>): (r: seq<string>)
    ensures |r| == |row|
    ensures forall i :: 0 <= i < |r| ==> r[i] == Quote(row[i])
  {
    seq(|row|, i requires 0 <= i < |row| => Quote(row[i]))
  }

  /** What `quote()` sees: the longest prefix without a NUL. */
  lemma {:induction false} UpToNulExactly(s: string)
    ensures |UpToNul(s)| <= |s| && s[..|UpToNul(s)|] == UpToNul(s)
    ensures |UpToNul(s)| < |s| ==> s[|UpToNul(s)|] == NUL
  {
    if s != [] && s[0] != NUL {
      UpToNulExactly(s[1..]);
    }
  }

  /** Doubling works character by character, on quotes only. */
  lemma {:induction false} DoubledExactly(s: string, t: string)
    ensures Doubled(s + t) == Doubled(s) + Doubled(t)
    ensures |s| == 1 ==> Doubled(s) == if s == ['\''] then ['\'', '\''] else s
  {
    if s == [] {
      assert s + t == t;
    } else {
      assert (s + t)[1..] == s[1..] + t;
      DoubledExactly(s[1..], t);
    }
  }

  lemma {:induction false} DoubledInjective(s: string, t: string)
    requires Doubled(s) == Doubled(t)
    ensures s == t
  {
    if s != [] && t != [] {
      var a := if s[0] == '\'' then "''" else [s[0]];
      var b := if t[0] == '\'' then "''" else [t[0]];
      assert Doubled(s)[0] == s[0] && Doubled(t)[0] == t[0];
      PrefixesOfEqualLength(a, b, Doubled(s[1..]), Doubled(t[1..]));
      DoubledInjective(s[1..], t[1..]);
      assert s == [s[0]] + s[1..] && t == [t[0]] + t[1..];
    }
  }

  lemma QuotedInjective(s: string, t: string)
    requires Quoted(s) == Quoted(t)
    ensures s == t
  {
    assert Quoted(s)[1..|Quoted(s)| - 1] == Doubled(s);
    assert Quoted(t)[1..|Quoted(t)| - 1] == Doubled(t);
    DoubledInjective(s, t);
  }

  lemma QuoteTag(c: Cell)
    ensures Quote(c) != []
    ensures c.Null? <==> Quote(c)[0] == 'N'
    ensures c.Text? <==> Quote(c)[0] == '\''
  {
  }

  /** `quote()` keeps exactly what precedes the first NUL of a text, and everything else. */
  lemma QuoteExact(c: Cell, d: Cell)
    ensures Quote(c) == Quote(d) <==> Visible(c) == Visible(d)
  {
    if Quote(c) == Quote(d) {
      QuoteTag(c);
      QuoteTag(d);
      match c
      case Null =>
      case Int(n) => DecimalInjective(n, d.n);
      case Text(s) => QuotedInjective(UpToNul(s), UpToNul(d.s));
    }
  }

  /** The two quoting functions agree on a text exactly when it holds no NUL. */
  lemma QuotingsAgree(s: string)
    ensures Quote(Text(s)) == Quoted(s) <==> NulFree(s)
  {
    if Quote(Text(s)) == Quoted(s) {
      QuotedInjective(UpToNul(s), s);
    }
  }
}

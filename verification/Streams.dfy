/**
 * The byte stream of a state snapshot: for each table its bare name, then every value of every row
 * behind its length. Names are not length-framed, so the stream is decodable only because a length
 * begins with a zero byte and a table name never does.
 */
module Streams {
  import opened Prelude
  import opened Bytes

  type Line = seq<string>

  /** SQLite keeps values under 2^31 bytes; anything under 2^56 makes the length begin with zero. */
  ghost predicate Storable(values: seq<seq<byte>>) {
    forall i :: 0 <= i < |values| ==> |values[i]| < Pow256(7)
  }

  function Flat(lines: seq<Line>): seq<string> {
    if lines == [] then [] else lines[0] + Flat(lines[1..])
  }

  function Section(name: string, lines: seq<Line>): seq<byte> {
    Utf8(name) + FrameAll(Encode(Flat(lines)))
  }

  function Body(names: seq<string>, tables: seq<seq<Line>>): seq<byte>
    requires |names| == |tables|
  {
    if names == [] then [] else Section(names[0], tables[0]) + Body(names[1..], tables[1..])
  }

  ghost predicate Named(names: seq<string>) {
    forall i :: 0 <= i < |names| ==> names[i] != [] && Utf8(names[i])[0] != 0
  }

  ghost predicate Shaped(widths: seq<nat>, tables: seq<seq<Line>>) {
    && |widths| == |tables|
    && forall i :: 0 <= i < |tables| ==> ShapedTable(widths[i], tables[i])
  }

  ghost predicate ShapedTable(width: nat, lines: seq<Line>) {
    && width > 0
    && (forall j :: 0 <= j < |lines| ==> |lines[j]| == width)
    && Storable(Encode(Flat(lines)))
  }

  /** What may follow a run of framed values: the end, or a table name. */
  ghost predicate Stops(tail: seq<byte>) {
    tail == [] || tail[0] != 0
  }

  lemma FrameStartsWithZero(v: seq<byte>, x: seq<byte>)
    requires |v| < Pow256(7)
    ensures (Frame(v) + x)[0] == 0
  {
    BigEndianLeadingZero(|v|, 8);
  }

  lemma ShortIsAddressable(v: seq<byte>)
    requires |v| < Pow256(7)
    ensures |v| < Pow256(8)
  {
  }

  lemma EmptyRun(b: seq<seq<byte>>, x: seq<byte>, y: seq<byte>)
    requires x == FrameAll(b) + y && Storable(b) && Stops(x)
    ensures b == [] && x == y
  {
    if b != [] {
      FrameAllHead(b, y);
      FrameStartsWithZero(b[0], FrameAll(b[1..]) + y);
      assert false;
    }
  }

  /** A run of framed values ends where a table name begins, so it can be cut off in only one way. */
  lemma {:induction false} RunsSplit(a: seq<seq<byte>>, b: seq<seq<byte>>, x: seq<byte>, y: seq<byte>)
    requires FrameAll(a) + x == FrameAll(b) + y
    requires Storable(a) && Storable(b) && Stops(x) && Stops(y)
    ensures a == b && x == y
  {
    if a == [] {
      EmptyRun(b, x, y);
    } else if b == [] {
      EmptyRun(a, y, x);
    } else {
      FrameAllHead(a, x);
      FrameAllHead(b, y);
      ShortIsAddressable(a[0]);
      ShortIsAddressable(b[0]);
      FrameSplits(a[0], b[0], FrameAll(a[1..]) + x, FrameAll(b[1..]) + y);
      RunsSplit(a[1..], b[1..], x, y);
      assert a == [a[0]] + a[1..] && b == [b[0]] + b[1..];
    }
  }

  lemma {:induction false} FlatInjective(width: nat, a: seq<Line>, b: seq<Line>)
    requires width > 0 && Flat(a) == Flat(b)
    requires forall j :: 0 <= j < |a| ==> |a[j]| == width
    requires forall j :: 0 <= j < |b| ==> |b[j]| == width
    ensures a == b
  {
    assert a == [] <==> |Flat(a)| == 0;
    assert b == [] <==> |Flat(b)| == 0;
    if a != [] {
      PrefixesOfEqualLength(a[0], b[0], Flat(a[1..]), Flat(b[1..]));
      FlatInjective(width, a[1..], b[1..]);
      assert a == [a[0]] + a[1..] && b == [b[0]] + b[1..];
    }
  }

  lemma BodyStops(names: seq<string>, tables: seq<seq<Line>>)
    requires |names| == |tables| && Named(names)
    ensures Stops(Body(names, tables))
  {
  }

  lemma SectionSplits(name: string, width: nat, a: seq<Line>, b: seq<Line>, x: seq<byte>, y: seq<byte>)
    requires Section(name, a) + x == Section(name, b) + y
    requires ShapedTable(width, a) && ShapedTable(width, b) && Stops(x) && Stops(y)
    ensures a == b && x == y
  {
    hide FrameAll, Encode, Utf8, Storable;
    var p, q := FrameAll(Encode(Flat(a))), FrameAll(Encode(Flat(b)));
    assert Section(name, a) + x == Utf8(name) + (p + x);
    assert Section(name, b) + y == Utf8(name) + (q + y);
    PrefixesOfEqualLength(Utf8(name), Utf8(name), p + x, q + y);
    RunsSplit(Encode(Flat(a)), Encode(Flat(b)), x, y);
    EncodeInjective(Flat(a), Flat(b));
    FlatInjective(width, a, b);
  }

  /** The whole stream determines every row of every table. */
  lemma {:induction false} BodyInjective(names: seq<string>, widths: seq<nat>, a: seq<seq<Line>>, b: seq<seq<Line>>)
    requires |names| == |a| == |b| && Named(names)
    requires Shaped(widths, a) && Shaped(widths, b)
    requires Body(names, a) == Body(names, b)
    ensures a == b
  {
    if names != [] {
      BodyStops(names[1..], a[1..]);
      BodyStops(names[1..], b[1..]);
      SectionSplits(names[0], widths[0], a[0], b[0], Body(names[1..], a[1..]), Body(names[1..], b[1..]));
      BodyInjective(names[1..], widths[1..], a[1..], b[1..]);
      assert a == [a[0]] + a[1..] && b == [b[0]] + b[1..];
    }
  }

  lemma StreamInjective(g: seq<byte>, h: seq<byte>, names: seq<string>, widths: seq<nat>,
                        a: seq<seq<Line>>, b: seq<seq<Line>>)
    requires |g| == |h| && |names| == |a| == |b| && Named(names)
    requires Shaped(widths, a) && Shaped(widths, b)
    requires g + Body(names, a) == h + Body(names, b)
    ensures g == h && a == b
  {
    PrefixesOfEqualLength(g, h, Body(names, a), Body(names, b));
    BodyInjective(names, widths, a, b);
  }

  // ------------------------------------------------- the accumulator loops

  lemma {:induction false} FlatConcat(a: seq<Line>, b: seq<Line>)
    ensures Flat(a + b) == Flat(a) + Flat(b)
  {
    if a == [] {
      assert a + b == b;
    } else {
      assert (a + b)[1..] == a[1..] + b;
      FlatConcat(a[1..], b);
    }
  }

  lemma EncodeConcat(a: seq<string>, b: seq<string>)
    ensures Encode(a + b) == Encode(a) + Encode(b)
  {
  }

  lemma FlatAppend(lines: seq<Line>, k: nat)
    requires k < |lines|
    ensures FrameAll(Encode(Flat(lines[..k + 1])))
         == FrameAll(Encode(Flat(lines[..k]))) + FrameAll(Encode(lines[k]))
  {
    assert lines[..k + 1] == lines[..k] + [lines[k]];
    FlatConcat(lines[..k], [lines[k]]);
    assert Flat([lines[k]]) == lines[k];
    EncodeConcat(Flat(lines[..k]), lines[k]);
    FrameAllConcat(Encode(Flat(lines[..k])), Encode(lines[k]));
  }

  lemma {:induction false} BodyConcat(m: seq<string>, n: seq<string>, a: seq<seq<Line>>, b: seq<seq<Line>>)
    requires |m| == |a| && |n| == |b|
    ensures Body(m + n, a + b) == Body(m, a) + Body(n, b)
  {
    if m == [] {
      assert m + n == n && a + b == b;
    } else {
      assert (m + n)[1..] == m[1..] + n && (a + b)[1..] == a[1..] + b;
      BodyConcat(m[1..], n, a[1..], b);
    }
  }

  lemma BodyAppend(names: seq<string>, tables: seq<seq<Line>>, k: nat)
    requires |names| == |tables| && k < |names|
    ensures Body(names[..k + 1], tables[..k + 1]) == Body(names[..k], tables[..k]) + Section(names[k], tables[k])
  {
    assert names[..k + 1] == names[..k] + [names[k]] && tables[..k + 1] == tables[..k] + [tables[k]];
    BodyConcat(names[..k], [names[k]], tables[..k], [tables[k]]);
    assert Body([names[k]], [tables[k]]) == Section(names[k], tables[k]);
  }

  lemma LineAppend(seed: seq<byte>, values: Line, k: nat)
    requires k < |values|
    ensures var value := Utf8(values[k]);
      seed + FrameAll(Encode(values[..k])) + BigEndian(|value|, 8) + value == seed + FrameAll(Encode(values[..k + 1]))
  {
    hide Utf8, BigEndian;
    var before, value := Encode(values[..k]), Utf8(values[k]);
    assert Encode(values[..k + 1]) == before + [value];
    FrameAllConcat(before, [value]);
    assert FrameAll([value]) == Frame(value) == BigEndian(|value|, 8) + value;
  }

  method HashLine(seed: seq<byte>, values: Line) returns (hash: seq<byte>)
    ensures hash == seed + FrameAll(Encode(values))
  {
    hide Utf8, BigEndian;
    hash := seed;
    for k := 0 to |values|
      invariant hash == seed + FrameAll(Encode(values[..k]))
    {
      var value := Utf8(values[k]);
      LineAppend(seed, values, k);
      hash := hash + BigEndian(|value|, 8) + value;
    }
    assert values[..|values|] == values;
  }

  lemma TableAppend(prefix: seq<byte>, lines: seq<Line>, k: nat)
    requires k < |lines|
    ensures prefix + FrameAll(Encode(Flat(lines[..k]))) + FrameAll(Encode(lines[k])) == prefix + FrameAll(Encode(Flat(lines[..k + 1])))
  {
    hide FrameAll, Encode, Flat;
    FlatAppend(lines, k);
  }

  method HashTable(seed: seq<byte>, name: string, lines: seq<Line>) returns (hash: seq<byte>)
    ensures hash == seed + Section(name, lines)
  {
    hash := seed + Utf8(name);
    ghost var prefix := hash;
    assert hash == prefix + FrameAll(Encode(Flat(lines[..0])));
    hide FrameAll, Encode, Flat, Utf8;
    for k := 0 to |lines|
      invariant hash == prefix + FrameAll(Encode(Flat(lines[..k])))
    {
      TableAppend(prefix, lines, k);
      hash := HashLine(hash, lines[k]);
    }
    assert lines[..|lines|] == lines;
  }

  /** The table loop of `snapshot_with_schema`. */
  method HashTables(header: seq<byte>, names: seq<string>, tables: seq<seq<Line>>) returns (hash: seq<byte>)
    requires |names| == |tables|
    ensures hash == header + Body(names, tables)
  {
    hash := header;
    for k := 0 to |names|
      invariant hash == header + Body(names[..k], tables[..k])
    {
      BodyAppend(names, tables, k);
      ghost var before := Body(names[..k], tables[..k]);
      hash := HashTable(hash, names[k], tables[k]);
      assert hash == header + (before + Section(names[k], tables[k]));
    }
    assert names[..|names|] == names && tables[..|tables|] == tables;
  }
}

/**
 * The text of one line of the hex dump: the offset, the bytes in groups of
 * two rendered through the template for the line's length, and the ASCII
 * column. This is what `chunks`, `printable` and the two formatted prints
 * of one line in encoder.go produce together.
 */
module Layout {
  import opened Fmt
  import opened FmtTable
  import opened Templates

  /**
   * The byte groups `chunks` passes after the offset: consecutive pairs,
   * then a last single byte when the count is odd.
   */
  function Groups(b: seq<byte>): (g: seq<Arg>)
    ensures |g| == (|b| + 1) / 2
    decreases |b|
  {
    if |b| == 0 then []
    else if |b| == 1 then [BytesArg(b)]
    else [BytesArg(b[..2])] + Groups(b[2..])
  }

  /** The arguments of a line's hex part: the offset, then the groups. */
  function ChunkList(n: nat, b: seq<byte>): seq<Arg> {
    [IntArg(n)] + Groups(b)
  }

  /** The bytes of a list of arguments, in order (an offset holds none). */
  function GroupBytes(g: seq<Arg>): seq<byte> {
    if g == [] then []
    else (match g[0] case BytesArg(bs) => bs case IntArg(_) => []) + GroupBytes(g[1..])
  }

  /** Group i holds bytes 2i and 2i + 1. */
  lemma {:induction false} GroupsAt(b: seq<byte>, i: nat)
    requires i < |b| / 2
    ensures Groups(b)[i] == BytesArg(b[2 * i..2 * i + 2])
    decreases i
  {
    if i > 0 {
      var rest := b[2..];
      GroupsAt(rest, i - 1);
      assert Groups(b)[i] == Groups(rest)[i - 1];
      assert rest[2 * (i - 1)..2 * (i - 1) + 2] == b[2 * i..2 * i + 2];
    }
  }

  /** When |b| is odd the last group holds the last byte alone. */
  lemma {:induction false} GroupsLast(b: seq<byte>)
    requires |b| % 2 == 1
    ensures Groups(b)[|b| / 2] == BytesArg([b[|b| - 1]])
    decreases |b|
  {
    if |b| == 1 {
      assert b == [b[0]];
    } else {
      var rest := b[2..];
      GroupsLast(rest);
      assert Groups(b)[|b| / 2] == Groups(rest)[|rest| / 2];
      assert rest[|rest| - 1] == b[|b| - 1];
    }
  }

  /** The groups give back the bytes, in order. */
  lemma {:induction false} GroupsConcat(b: seq<byte>)
    ensures GroupBytes(Groups(b)) == b
    decreases |b|
  {
    if |b| == 1 {
      assert GroupBytes(Groups(b)) == b + GroupBytes([]);
    } else if |b| >= 2 {
      var rest := b[2..];
      GroupsConcat(rest);
      var g := Groups(b);
      assert g[0] == BytesArg(b[..2]) && g[1..] == Groups(rest);
      assert b == b[..2] + rest;
    }
  }

  lemma TakeSnoc<T>(s: seq<T>, k: nat)
    requires k < |s|
    ensures s[..k] + [s[k]] == s[..k + 1]
  {
  }

  /**
   * There are ceil(|b| / 2) groups; group i holds bytes 2i and 2i + 1,
   * except that a last group of one byte is there exactly when |b| is odd;
   * and the groups give back b.
   */
  lemma GroupsStructure(b: seq<byte>)
    ensures |Groups(b)| == (|b| + 1) / 2
    ensures forall i :: 0 <= i < |b| / 2 ==> Groups(b)[i] == BytesArg(b[2 * i..2 * i + 2])
    ensures |b| % 2 == 1 ==> Groups(b)[|b| / 2] == BytesArg([b[|b| - 1]])
    ensures GroupBytes(Groups(b)) == b
  {
    forall i | 0 <= i < |b| / 2
      ensures Groups(b)[i] == BytesArg(b[2 * i..2 * i + 2])
    {
      GroupsAt(b, i);
    }
    if |b| % 2 == 1 {
      GroupsLast(b);
    }
    GroupsConcat(b);
  }

  /**
   * The groups as `%04x` and `%02x` print them, separated by single
   * spaces.
   */
  function GroupText(b: seq<byte>): (s: string)
    requires |b| >= 1
    ensures |s| == GroupWidth(|b|)
    decreases |b|
  {
    if |b| <= 2 then HexBytes(b) else HexBytes(b[..2]) + " " + GroupText(b[2..])
  }

  /** The text with its spaces taken out. */
  function Unspaced(s: string): string {
    if s == [] then [] else (if s[0] == ' ' then [] else [s[0]]) + Unspaced(s[1..])
  }

  lemma {:induction false} UnspacedAppend(s: string, t: string)
    ensures Unspaced(s + t) == Unspaced(s) + Unspaced(t)
  {
    if s == [] {
      assert s + t == t;
    } else {
      var st := s + t;
      assert st[0] == s[0] && st[1..] == s[1..] + t;
      UnspacedAppend(s[1..], t);
      var c := if s[0] == ' ' then [] else [s[0]];
      assert c + (Unspaced(s[1..]) + Unspaced(t)) == c + Unspaced(s[1..]) + Unspaced(t);
    }
  }

  lemma {:induction false} UnspacedHexDigits(s: string)
    requires forall i :: 0 <= i < |s| ==> IsHexDigit(s[i])
    ensures Unspaced(s) == s
  {
    if s != [] {
      UnspacedHexDigits(s[1..]);
      assert s == [s[0]] + s[1..];
    }
  }

  /** `%x` of a concatenation is the concatenation of the renderings. */
  lemma {:induction false} HexBytesAppend(x: seq<byte>, y: seq<byte>)
    ensures HexBytes(x + y) == HexBytes(x) + HexBytes(y)
  {
    if x == [] {
      assert x + y == y;
    } else {
      var xy := x + y;
      assert xy[0] == x[0] && xy[1..] == x[1..] + y;
      HexBytesAppend(x[1..], y);
      var d := [HexDigit(x[0] / 16), HexDigit(x[0] % 16)];
      assert d + (HexBytes(x[1..]) + HexBytes(y)) == d + HexBytes(x[1..]) + HexBytes(y);
    }
  }

  /**
   * Taking the spaces out of the group text leaves `%x` of the whole line:
   * the groups hold every byte's two digits, bytes in order.
   */
  lemma {:induction false} GroupTextDigits(b: seq<byte>)
    requires |b| >= 1
    ensures Unspaced(GroupText(b)) == HexBytes(b)
    decreases |b|
  {
    if |b| <= 2 {
      UnspacedHexDigits(HexBytes(b));
    } else {
      var head, rest := b[..2], b[2..];
      GroupTextDigits(rest);
      UnspacedPair(HexBytes(head), GroupText(rest));
      assert b == head + rest;
      HexBytesAppend(head, rest);
    }
  }

  lemma UnspacedPair(h: string, g: string)
    requires forall i :: 0 <= i < |h| ==> IsHexDigit(h[i])
    ensures Unspaced(h + " " + g) == h + Unspaced(g)
  {
    UnspacedAppend(h + " ", g);
    UnspacedAppend(h, " ");
    UnspacedHexDigits(h);
    assert Unspaced(" ") == [];
    assert h + [] == h;
  }

  /** A group text of more than two bytes: the first pair, a space, the rest. */
  lemma GroupTextCons(b: seq<byte>)
    requires |b| > 2
    ensures GroupText(b) == (HexBytes(b[..2]) + " ") + GroupText(b[2..])
    ensures |HexBytes(b[..2]) + " "| == 5
  {
  }

  /**
   * The character at column i of the group text, worked out from i alone:
   * every fifth column (4, 9, 14, ...) is the space between two groups;
   * otherwise column i lies in group i / 5, on byte 2 * (i / 5) + (i % 5) / 2,
   * and shows that byte's high nibble at even positions within the group
   * and its low nibble at odd ones.
   */
  function GroupChar(b: seq<byte>, i: nat): char
    requires |b| >= 1 && i < GroupWidth(|b|)
  {
    if i % 5 == 4 then ' '
    else
      var k := 2 * (i / 5) + (i % 5) / 2;
      HexDigit(if i % 5 % 2 == 0 then b[k] / 16 else b[k] % 16)
  }

  /** The group text as a column layout. */
  function GroupColumns(b: seq<byte>): (s: string)
    requires |b| >= 1
    ensures |s| == GroupWidth(|b|)
  {
    seq(GroupWidth(|b|), i requires 0 <= i < GroupWidth(|b|) => GroupChar(b, i))
  }

  /**
   * What `%04x` and `%02x` print for the groups is the column layout: four
   * digits, a space, four digits and so on, the bytes in order, high nibble
   * first.
   */
  lemma {:induction false} GroupTextColumns(b: seq<byte>)
    requires |b| >= 1
    ensures GroupText(b) == GroupColumns(b)
    decreases |b|
  {
    if |b| <= 2 {
      ShortGroupColumns(b);
    } else {
      GroupTextColumns(b[2..]);
      forall i | 0 <= i < GroupWidth(|b|)
        ensures GroupText(b)[i] == GroupColumns(b)[i]
      {
        ColumnAt(b, i);
      }
    }
  }

  lemma ShortGroupColumns(b: seq<byte>)
    requires 1 <= |b| <= 2
    ensures GroupText(b) == GroupColumns(b)
  {
    if |b| == 1 {
      OneByteColumns(b);
    } else {
      PairDigits(b);
      PairColumns(b);
    }
  }

  lemma OneByteColumns(b: seq<byte>)
    requires |b| == 1
    ensures GroupText(b) == GroupColumns(b)
  {
    var d := [HexDigit(b[0] / 16), HexDigit(b[0] % 16)];
    var c := GroupColumns(b);
    assert |c| == 2 && c[0] == d[0] && c[1] == d[1];
    assert HexBytes(b) == d + HexBytes(b[1..]);
  }

  lemma PairColumns(b: seq<byte>)
    requires |b| == 2
    requires HexBytes(b) == [HexDigit(b[0] / 16), HexDigit(b[0] % 16), HexDigit(b[1] / 16), HexDigit(b[1] % 16)]
    ensures GroupText(b) == GroupColumns(b)
  {
    var c := GroupColumns(b);
    assert |c| == 4;
    assert c[0] == HexDigit(b[0] / 16) && c[1] == HexDigit(b[0] % 16);
    assert c[2] == HexDigit(b[1] / 16) && c[3] == HexDigit(b[1] % 16);
  }

  /** Column i of a group text of more than two bytes. */
  lemma ColumnAt(b: seq<byte>, i: nat)
    requires |b| > 2 && i < GroupWidth(|b|)
    requires GroupText(b[2..]) == GroupColumns(b[2..])
    ensures GroupText(b)[i] == GroupChar(b, i)
  {
    var h, g := HexBytes(b[..2]) + " ", GroupText(b[2..]);
    GroupTextCons(b);
    IndexCong(GroupText(b), h + g, i);
    if i < 5 {
      FirstGroupChar(b, i);
      assert (h + g)[i] == h[i];
    } else {
      GroupTextShift(h, g, i);
      IndexCong(g, GroupColumns(b[2..]), i - 5);
      GroupCharShift(b, i);
      assert g[i - 5] == GroupChar(b[2..], i - 5);
    }
  }

  /** The first five columns: the first pair's four digits and a space. */
  lemma FirstGroupChar(b: seq<byte>, i: nat)
    requires |b| > 2 && i < 5
    ensures i < GroupWidth(|b|)
    ensures (HexBytes(b[..2]) + " ")[i] == GroupChar(b, i)
  {
    PairDigits(b[..2]);
  }

  /** The two bytes of a pair print as four digits, high nibble first. */
  lemma PairDigits(p: seq<byte>)
    requires |p| == 2
    ensures HexBytes(p) == [HexDigit(p[0] / 16), HexDigit(p[0] % 16), HexDigit(p[1] / 16), HexDigit(p[1] % 16)]
  {
    assert HexBytes(p[1..]) == [HexDigit(p[1] / 16), HexDigit(p[1] % 16)] + HexBytes(p[2..]);
  }

  /** Past the first group, the columns are those of the bytes after the first pair. */
  lemma GroupCharShift(b: seq<byte>, i: nat)
    requires |b| > 2 && 5 <= i < GroupWidth(|b|)
    ensures i - 5 < GroupWidth(|b| - 2)
    ensures GroupChar(b, i) == GroupChar(b[2..], i - 5)
  {
    var j := i - 5;
    assert j % 5 == i % 5 && j / 5 == i / 5 - 1;
  }

  lemma IndexCong(s: string, u: string, i: nat)
    requires s == u && i < |s|
    ensures s[i] == u[i]
  {
  }

  lemma GroupTextShift(h: string, g: string, i: nat)
    requires |h| == 5 && 5 <= i < 5 + |g|
    ensures (h + g)[i] == g[i - 5]
  {
  }

  /** The groups of more than two bytes: the first pair, then the rest. */
  lemma GroupsCons(b: seq<byte>, more: seq<Arg>)
    requires |b| > 2
    ensures Groups(b) + more == [BytesArg(b[..2])] + (Groups(b[2..]) + more)
  {
    var x, g := BytesArg(b[..2]), Groups(b[2..]);
    assert Groups(b) == [x] + g;
    assert [x] + g + more == [x] + (g + more);
  }

  /** A pair of bytes under `%04x`, then a space. */
  lemma SprintfPair(p: seq<byte>, tail: string, xs: seq<Arg>)
    requires |p| == 2
    ensures Sprintf("%04x" + (" " + tail), [BytesArg(p)] + xs) == HexBytes(p) + (" " + Sprintf(tail, xs))
  {
    SprintfVerb("%04x", " " + tail, BytesArg(p), xs);
    SprintfChar(' ', tail, xs);
  }

  /** The last group: one byte under `%02x` or two under `%04x`. */
  lemma SprintfLastGroup(b: seq<byte>, t: string, more: seq<Arg>)
    requires 1 <= |b| <= 2
    ensures Sprintf(GroupVerbs(|b|) + t, Groups(b) + more) == GroupText(b) + Sprintf(t, more)
  {
    var verb := if |b| == 1 then "%02x" else "%04x";
    assert |b| == 2 ==> b[..2] == b && Groups(b[2..]) == [];
    assert Groups(b) == [BytesArg(b)];
    SprintfCong(GroupVerbs(|b|) + t, verb + t, Groups(b) + more, [BytesArg(b)] + more);
    SprintfVerb(verb, t, BytesArg(b), more);
  }

  /**
   * Under the group verbs for |b| bytes, the groups of b print as their
   * group text, and the rest of the template takes the remaining
   * arguments.
   */
  lemma {:induction false} SprintfGroups(b: seq<byte>, t: string, more: seq<Arg>)
    requires |b| >= 1
    ensures Sprintf(GroupVerbs(|b|) + t, Groups(b) + more) == GroupText(b) + Sprintf(t, more)
    decreases |b|
  {
    if |b| <= 2 {
      SprintfLastGroup(b, t, more);
    } else {
      var p, rest := b[..2], b[2..];
      var tail := GroupVerbs(|rest|) + t;
      GroupVerbsUnfold(|b|, t);
      GroupsCons(b, more);
      SprintfCong(GroupVerbs(|b|) + t, "%04x" + (" " + tail), Groups(b) + more, [BytesArg(p)] + (Groups(rest) + more));
      SprintfPair(p, tail, Groups(rest) + more);
      SprintfGroups(rest, t, more);
      ConcatAssoc(HexBytes(p), " ", GroupText(rest) + Sprintf(t, more));
      ConcatAssoc(HexBytes(p) + " ", GroupText(rest), Sprintf(t, more));
    }
  }

  lemma ConcatAssoc<T>(a: seq<T>, b: seq<T>, c: seq<T>)
    ensures a + b + c == a + (b + c)
  {
  }

  /**
   * The layout of a line's hex part: the offset in at least eight digits,
   * ": ", the group text, and spaces up to 41 characters after ": ".
   */
  function HexLayout(n: nat, b: seq<byte>): string
    requires 1 <= |b| <= 16
  {
    Hex(n, 8) + ": " + GroupColumns(b) + Spaces(41 - GroupWidth(|b|))
  }

  /**
   * The template for |b| bytes, filled in with what `chunks` returns, gives
   * the layout, whatever the line's length.
   */
  lemma LineLayout(n: nat, b: seq<byte>)
    requires 1 <= |b| <= 16
    ensures GroupWidth(|b|) <= 39
    ensures Sprintf(Template(|b|), ChunkList(n, b)) == HexLayout(n, b)
  {
    var pad := Spaces(41 - GroupWidth(|b|));
    var t := "%08x" + (": " + (GroupVerbs(|b|) + pad));
    TemplateSplit(|b|);
    SprintfCong(Template(|b|), t, ChunkList(n, b), [IntArg(n)] + Groups(b));
    SprintfLine(n, b, pad);
    ConcatAssoc(Hex(n, 8), ": ", GroupText(b) + pad);
    ConcatAssoc(Hex(n, 8) + ": ", GroupText(b), pad);
    GroupTextColumns(b);
  }

  lemma TemplateSplit(N: nat)
    requires 1 <= N <= 16
    ensures Template(N) == "%08x" + (": " + (GroupVerbs(N) + Spaces(41 - GroupWidth(N))))
  {
    assert "%08x: " == "%08x" + ": ";
  }

  /**
   * The row of the table for |b| bytes, filled in with what `chunks`
   * returns, gives the layout: the hex part of every line the encoder
   * prints.
   */
  lemma TableLine(n: nat, b: seq<byte>)
    requires 1 <= |b| <= 16
    ensures Sprintf(FmtStrings[|b|], ChunkList(n, b)) == HexLayout(n, b)
  {
    TableFollowsRule(|b|);
    SprintfCong(FmtStrings[|b|], Template(|b|), ChunkList(n, b), ChunkList(n, b));
    LineLayout(n, b);
  }

  /** The offset verb, ": ", the group verbs and text without verbs, filled in. */
  lemma SprintfLine(n: nat, b: seq<byte>, pad: string)
    requires |b| >= 1
    requires forall i :: 0 <= i < |pad| ==> pad[i] != '%'
    ensures Sprintf("%08x" + (": " + (GroupVerbs(|b|) + pad)), [IntArg(n)] + Groups(b))
      == Hex(n, 8) + (": " + (GroupText(b) + pad))
  {
    SprintfOffset(n, b, pad);
    SprintfColon(b, pad);
    SprintfGroupsLast(b, pad);
    SprintfPad(pad);
  }

  lemma SprintfOffset(n: nat, b: seq<byte>, pad: string)
    ensures Sprintf("%08x" + (": " + (GroupVerbs(|b|) + pad)), [IntArg(n)] + Groups(b))
      == Hex(n, 8) + Sprintf(": " + (GroupVerbs(|b|) + pad), Groups(b))
  {
    SprintfVerb("%08x", ": " + (GroupVerbs(|b|) + pad), IntArg(n), Groups(b));
  }

  lemma SprintfColon(b: seq<byte>, pad: string)
    ensures Sprintf(": " + (GroupVerbs(|b|) + pad), Groups(b)) == ": " + Sprintf(GroupVerbs(|b|) + pad, Groups(b))
  {
    SprintfText(": ", GroupVerbs(|b|) + pad, Groups(b));
  }

  lemma SprintfGroupsLast(b: seq<byte>, pad: string)
    requires |b| >= 1
    ensures Sprintf(GroupVerbs(|b|) + pad, Groups(b)) == GroupText(b) + Sprintf(pad, [])
  {
    SprintfCong(GroupVerbs(|b|) + pad, GroupVerbs(|b|) + pad, Groups(b), Groups(b) + []);
    SprintfGroups(b, pad, []);
  }

  lemma SprintfPad(pad: string)
    requires forall i :: 0 <= i < |pad| ==> pad[i] != '%'
    ensures Sprintf(pad, []) == pad
  {
    SprintfText(pad, [], []);
    SprintfCong(pad, pad + [], [], []);
    assert pad + [] == pad;
  }

  /** Offsets below 2^32 take exactly eight digits. */
  lemma OffsetWidth(n: nat)
    requires n < 0x1_0000_0000
    ensures |Hex(n, 8)| == 8
  {
    HexExactWidth(n, 8);
    assert Pow16(8) == 0x1_0000_0000;
  }

  /**
   * The byte `printable` shows for c: c itself from 32 to 127 (127
   * included), '.' for any other byte.
   */
  function ShowByte(c: byte): byte {
    if c < 32 || c > 127 then '.' as int else c
  }

  /** The ASCII column of a line, byte by byte. */
  function AsciiColumn(b: seq<byte>): (r: seq<byte>)
    ensures |r| == |b|
    ensures forall i :: 0 <= i < |b| && 32 <= b[i] <= 127 ==> r[i] == b[i]
    ensures forall i :: 0 <= i < |b| && (b[i] < 32 || b[i] > 127) ==> r[i] == '.' as int
  {
    seq(|b|, i requires 0 <= i < |b| => ShowByte(b[i]))
  }

  /**
   * `printable`: the ASCII column built by filling a fresh buffer, with
   * nothing for an empty input.
   */
  method Printable(b: seq<byte>) returns (out: seq<byte>)
    ensures out == AsciiColumn(b)
  {
    if |b| == 0 {
      return [];
    }
    var a := new byte[|b|];
    for i := 0 to |b|
      invariant forall j :: 0 <= j < i ==> a[j] == ShowByte(b[j])
    {
      if b[i] < 32 || b[i] > 127 {
        a[i] := '.' as int;
      } else {
        a[i] := b[i];
      }
    }
    out := a[..];
  }

  /** Every byte of the ASCII column is printable, so showing it again changes nothing. */
  lemma AsciiColumnIdempotent(b: seq<byte>)
    ensures forall i :: 0 <= i < |b| ==> 32 <= AsciiColumn(b)[i] <= 127
    ensures AsciiColumn(AsciiColumn(b)) == AsciiColumn(b)
  {
  }

  /** The ASCII part of a line: `"%s\n"` over the printable bytes. */
  function AsciiLine(b: seq<byte>): string {
    Chars(AsciiColumn(b)) + "\n"
  }

  /** One whole line for the bytes b at offset n. */
  function Line(n: nat, b: seq<byte>): string
    requires 1 <= |b| <= 16
  {
    HexLayout(n, b) + AsciiLine(b)
  }

  /**
   * For offsets below 2^32 the ASCII column starts at column 51 on every
   * line, full or short: the hex part is 8 + 2 + 41 characters.
   */
  lemma AsciiColumnAligned(n: nat, b: seq<byte>)
    requires 1 <= |b| <= 16 && n < 0x1_0000_0000
    ensures |HexLayout(n, b)| == 51
    ensures Line(n, b)[..8] == Hex(n, 8)
    ensures Line(n, b)[51..] == AsciiLine(b)
  {
    OffsetWidth(n);
    var h := HexLayout(n, b);
    assert h == Hex(n, 8) + (": " + GroupColumns(b) + Spaces(41 - GroupWidth(|b|)));
    assert Line(n, b) == h + AsciiLine(b);
    assert Line(n, b)[..8] == h[..8];
  }
}

/**
 * The part of Go's `fmt` package that the hex dump relies on: lowercase
 * hexadecimal rendering of an integer and of a byte slice under a verb
 * `%0Dx` (D one decimal digit), and the substitution of such verbs in a
 * template by successive arguments, as `fmt.Fprintf` performs it.
 */
module Fmt {

  /** Go's `byte`. */
  type byte = b: int | 0 <= b < 256

  /** An argument of a formatted print: the offset counter (an `int`) or a byte slice. */
  datatype Arg = IntArg(v: nat) | BytesArg(bs: seq<byte>)

  predicate IsHexDigit(c: char) {
    '0' <= c <= '9' || 'a' <= c <= 'f'
  }

  /** The value of one hexadecimal digit (0 for anything else). */
  function DigitValue(c: char): (d: nat)
    ensures d < 16
  {
    if '0' <= c <= '9' then c as int - '0' as int
    else if 'a' <= c <= 'f' then c as int - 'a' as int + 10
    else 0
  }

  /** The lowercase digit for a value below 16. */
  function HexDigit(d: nat): (c: char)
    requires d < 16
    ensures IsHexDigit(c) && DigitValue(c) == d
  {
    if d < 10 then ('0' as int + d) as char else ('a' as int + d - 10) as char
  }

  function Pow16(k: nat): (p: nat)
    ensures p >= 1
  {
    if k == 0 then 1 else 16 * Pow16(k - 1)
  }

  /**
   * `%0<width>x` on a non-negative int: the lowercase hexadecimal digits of
   * `v`, most significant first, zero-padded on the left to at least `width`
   * digits. Numbers that need more digits get all of them.
   */
  function Hex(v: nat, width: nat): (s: string)
    ensures |s| >= width && |s| >= 1
    ensures forall i :: 0 <= i < |s| ==> IsHexDigit(s[i])
    decreases v, width
  {
    if v < 16 && width <= 1 then [HexDigit(v)]
    else Hex(v / 16, if width == 0 then 0 else width - 1) + [HexDigit(v % 16)]
  }

  /** The number a string of hexadecimal digits denotes, most significant first. */
  function HexValue(s: string): nat {
    if s == [] then 0 else 16 * HexValue(s[..|s| - 1]) + DigitValue(s[|s| - 1])
  }

  lemma {:induction false} HexValueSnoc(s: string, c: char)
    ensures HexValue(s + [c]) == 16 * HexValue(s) + DigitValue(c)
  {
    assert (s + [c])[..|s + [c]| - 1] == s;
  }

  /** Reading back what `Hex` printed gives the number printed. */
  lemma {:induction false} HexRoundTrip(v: nat, width: nat)
    ensures HexValue(Hex(v, width)) == v
    decreases v, width
  {
    if v < 16 && width <= 1 {
      assert Hex(v, width) == [] + [HexDigit(v)];
      HexValueSnoc([], HexDigit(v));
    } else {
      var w' := if width == 0 then 0 else width - 1;
      HexRoundTrip(v / 16, w');
      HexValueSnoc(Hex(v / 16, w'), HexDigit(v % 16));
    }
  }

  /** A string of k hexadecimal digits denotes a number below 16^k. */
  lemma {:induction false} HexValueBound(s: string)
    requires forall i :: 0 <= i < |s| ==> IsHexDigit(s[i])
    ensures HexValue(s) < Pow16(|s|)
  {
    if s != [] {
      var init := s[..|s| - 1];
      assert forall i :: 0 <= i < |init| ==> init[i] == s[i];
      HexValueBound(init);
      assert DigitValue(s[|s| - 1]) < 16;
    }
  }

  /**
   * `Hex(v, width)` is exactly `width` characters long if and only if `v`
   * fits in `width` hexadecimal digits: `%08x` prints eight characters
   * exactly for offsets below 2^32.
   */
  lemma {:induction false} HexExactWidth(v: nat, width: nat)
    requires width >= 1
    ensures |Hex(v, width)| == width <==> v < Pow16(width)
    decreases width
  {
    if |Hex(v, width)| == width {
      HexRoundTrip(v, width);
      HexValueBound(Hex(v, width));
    }
    if v < Pow16(width) && width > 1 {
      HexExactWidth(v / 16, width - 1);
    }
  }

  /**
   * `%x` on a byte slice: two lowercase digits per byte, high nibble first,
   * bytes in order.
   */
  function HexBytes(bs: seq<byte>): (s: string)
    ensures |s| == 2 * |bs|
    ensures forall i :: 0 <= i < |s| ==> IsHexDigit(s[i])
  {
    if bs == [] then [] else [HexDigit(bs[0] / 16), HexDigit(bs[0] % 16)] + HexBytes(bs[1..])
  }

  /** Reading digits back two at a time, high nibble first, one byte per pair. */
  function Unhex(s: string): seq<byte>
    decreases |s|
  {
    if |s| < 2 then [] else [16 * DigitValue(s[0]) + DigitValue(s[1])] + Unhex(s[2..])
  }

  /** Reading back a byte slice's `%x` rendering gives the bytes. */
  lemma {:induction false} HexBytesRoundTrip(bs: seq<byte>)
    ensures Unhex(HexBytes(bs)) == bs
  {
    if bs != [] {
      var x, rest := bs[0], bs[1..];
      HexBytesRoundTrip(rest);
      UnhexCons(HexDigit(x / 16), HexDigit(x % 16), HexBytes(rest));
      ByteDigits(x);
      assert bs == [x] + rest;
    }
  }

  lemma UnhexCons(hi: char, lo: char, s: string)
    ensures Unhex([hi, lo] + s) == [16 * DigitValue(hi) + DigitValue(lo)] + Unhex(s)
  {
    var t := [hi, lo] + s;
    assert t[0] == hi && t[1] == lo && t[2..] == s;
  }

  /** A byte's two digits give back the byte. */
  lemma ByteDigits(x: byte)
    ensures 16 * DigitValue(HexDigit(x / 16)) + DigitValue(HexDigit(x % 16)) == x
  {
  }

  /** Left padding with '0' up to a width. */
  function PadLeft(s: string, width: nat): (r: string)
    ensures |r| == if |s| >= width then |s| else width
    ensures s <= r[|r| - |s|..]
  {
    if |s| >= width then s else seq(width - |s|, _ => '0') + s
  }

  /** `%s` on a byte slice: the bytes themselves, as text. */
  function Chars(bs: seq<byte>): (s: string)
    ensures |s| == |bs| && forall i :: 0 <= i < |bs| ==> s[i] as int == bs[i]
  {
    seq(|bs|, i requires 0 <= i < |bs| => bs[i] as char)
  }

  /** The template starts with a verb `%0Dx`. */
  predicate VerbAt(t: string) {
    |t| >= 4 && t[0] == '%' && t[1] == '0' && '0' <= t[2] <= '9' && t[3] == 'x'
  }

  /** The width D of the verb `%0Dx` at the start of the template. */
  function VerbWidth(t: string): nat
    requires VerbAt(t)
  {
    t[2] as int - '0' as int
  }

  /** One argument under a verb of the given width. */
  function Format(a: Arg, width: nat): string {
    match a
    case IntArg(v) => Hex(v, width)
    case BytesArg(bs) => PadLeft(HexBytes(bs), width)
  }

  /**
   * `fmt.Sprintf(t, args...)` for templates whose only verbs are `%0Dx`:
   * every verb takes the next argument, every other character is copied.
   * With no arguments, or with no '%' in the template, the template is
   * printed as it stands; arguments left over are dropped.
   */
  function Sprintf(t: string, args: seq<Arg>): (r: string)
    ensures args == [] ==> r == t
    ensures (forall i :: 0 <= i < |t| ==> t[i] != '%') ==> r == t
    decreases |t|
  {
    if t == [] then []
    else if VerbAt(t) && args != [] then Format(args[0], VerbWidth(t)) + Sprintf(t[4..], args[1..])
    else [t[0]] + Sprintf(t[1..], args)
  }

  /** Equal templates and equal arguments print the same. */
  lemma SprintfCong(t: string, u: string, args: seq<Arg>, brgs: seq<Arg>)
    requires t == u && args == brgs
    ensures Sprintf(t, args) == Sprintf(u, brgs)
  {
  }

  /** A character other than '%' is copied and consumes no argument. */
  lemma SprintfChar(c: char, t: string, args: seq<Arg>)
    requires c != '%'
    ensures Sprintf([c] + t, args) == [c] + Sprintf(t, args)
  {
    assert ([c] + t)[1..] == t;
  }

  /** Text without a '%' is copied unchanged and consumes no argument. */
  lemma {:induction false} SprintfText(s: string, t: string, args: seq<Arg>)
    requires forall i :: 0 <= i < |s| ==> s[i] != '%'
    ensures Sprintf(s + t, args) == s + Sprintf(t, args)
  {
    if s == [] {
      assert s + t == t;
    } else {
      SprintfText(s[1..], t, args);
      assert s + t == [s[0]] + (s[1..] + t);
      SprintfChar(s[0], s[1..] + t, args);
      ConsAppend(s, Sprintf(t, args));
    }
  }

  lemma ConsAppend(s: string, x: string)
    requires s != []
    ensures [s[0]] + (s[1..] + x) == s + x
  {
  }

  /** A verb `%0Dx` renders the next argument at width D. */
  lemma SprintfVerb(verb: string, t: string, a: Arg, args: seq<Arg>)
    requires VerbAt(verb) && |verb| == 4
    ensures Sprintf(verb + t, [a] + args) == Format(a, VerbWidth(verb)) + Sprintf(t, args)
  {
    var s, xs := verb + t, [a] + args;
    assert s[0] == verb[0] && s[1] == verb[1] && s[2] == verb[2] && s[3] == verb[3];
    assert s[4..] == t;
    assert xs[0] == a && xs[1..] == args;
  }
}

/**
 * The template table of the hex dump, row by row as the encoder declares it
 * (`fmtStrings` in encoder.go), and the facts about its literal rows that the
 * rule in module `Templates` is checked against. Row N is the template of a
 * line holding N bytes; row 0 is never used.
 *
 * The facts here compare string literals only; they live in a module of
 * their own so that each comparison is made with no other definitions in
 * view.
 */
module FmtTable {

  const Row1 := "%08x: %02x                                       "
  const Row2 := "%08x: %04x                                     "
  const Row3 := "%08x: %04x %02x                                  "
  const Row4 := "%08x: %04x %04x                                "
  const Row5 := "%08x: %04x %04x %02x                             "
  const Row6 := "%08x: %04x %04x %04x                           "
  const Row7 := "%08x: %04x %04x %04x %02x                        "
  const Row8 := "%08x: %04x %04x %04x %04x                      "
  const Row9 := "%08x: %04x %04x %04x %04x %02x                   "
  const Row10 := "%08x: %04x %04x %04x %04x %04x                 "
  const Row11 := "%08x: %04x %04x %04x %04x %04x %02x              "
  const Row12 := "%08x: %04x %04x %04x %04x %04x %04x            "
  const Row13 := "%08x: %04x %04x %04x %04x %04x %04x %02x         "
  const Row14 := "%08x: %04x %04x %04x %04x %04x %04x %04x       "
  const Row15 := "%08x: %04x %04x %04x %04x %04x %04x %04x %02x    "
  const Row16 := "%08x: %04x %04x %04x %04x %04x %04x %04x %04x  "

  /** k spaces. */
  function Spaces(k: nat): (s: string)
    ensures |s| == k && forall i :: 0 <= i < k ==> s[i] == ' '
  {
    seq(k, _ => ' ')
  }

  // Row N is its verbs followed by spaces.

  lemma Pad1() ensures Row1 == "%08x: %02x" + Spaces(39) {}
  lemma Pad2() ensures Row2 == "%08x: %04x" + Spaces(37) {}
  lemma Pad3() ensures Row3 == "%08x: %04x %02x" + Spaces(34) {}
  lemma Pad4() ensures Row4 == "%08x: %04x %04x" + Spaces(32) {}
  lemma Pad5() ensures Row5 == "%08x: %04x %04x %02x" + Spaces(29) {}
  lemma Pad6() ensures Row6 == "%08x: %04x %04x %04x" + Spaces(27) {}
  lemma Pad7() ensures Row7 == "%08x: %04x %04x %04x %02x" + Spaces(24) {}
  lemma Pad8() ensures Row8 == "%08x: %04x %04x %04x %04x" + Spaces(22) {}
  lemma Pad9() ensures Row9 == "%08x: %04x %04x %04x %04x %02x" + Spaces(19) {}
  lemma Pad10() ensures Row10 == "%08x: %04x %04x %04x %04x %04x" + Spaces(17) {}
  lemma Pad11() ensures Row11 == "%08x: %04x %04x %04x %04x %04x %02x" + Spaces(14) {}
  lemma Pad12() ensures Row12 == "%08x: %04x %04x %04x %04x %04x %04x" + Spaces(12) {}
  lemma Pad13() ensures Row13 == "%08x: %04x %04x %04x %04x %04x %04x %02x" + Spaces(9) {}
  lemma Pad14() ensures Row14 == "%08x: %04x %04x %04x %04x %04x %04x %04x" + Spaces(7) {}
  lemma Pad15() ensures Row15 == "%08x: %04x %04x %04x %04x %04x %04x %04x %02x" + Spaces(4) {}
  lemma Pad16() ensures Row16 == "%08x: %04x %04x %04x %04x %04x %04x %04x %04x" + Spaces(2) {}

  // The verbs of row N are those of row N - 1 (N odd) or N - 2 (N even) and one more.

  lemma Step3() ensures "%08x: %04x %02x" == "%08x: %04x" + " %02x" {}
  lemma Step4() ensures "%08x: %04x %04x" == "%08x: %04x" + " %04x" {}
  lemma Step5() ensures "%08x: %04x %04x %02x" == "%08x: %04x %04x" + " %02x" {}
  lemma Step6() ensures "%08x: %04x %04x %04x" == "%08x: %04x %04x" + " %04x" {}
  lemma Step7() ensures "%08x: %04x %04x %04x %02x" == "%08x: %04x %04x %04x" + " %02x" {}
  lemma Step8() ensures "%08x: %04x %04x %04x %04x" == "%08x: %04x %04x %04x" + " %04x" {}
  lemma Step9() ensures "%08x: %04x %04x %04x %04x %02x" == "%08x: %04x %04x %04x %04x" + " %02x" {}
  lemma Step10() ensures "%08x: %04x %04x %04x %04x %04x" == "%08x: %04x %04x %04x %04x" + " %04x" {}
  lemma Step11() ensures "%08x: %04x %04x %04x %04x %04x %02x" == "%08x: %04x %04x %04x %04x %04x" + " %02x" {}
  lemma Step12() ensures "%08x: %04x %04x %04x %04x %04x %04x" == "%08x: %04x %04x %04x %04x %04x" + " %04x" {}
  lemma Step13() ensures "%08x: %04x %04x %04x %04x %04x %04x %02x" == "%08x: %04x %04x %04x %04x %04x %04x" + " %02x" {}
  lemma Step14() ensures "%08x: %04x %04x %04x %04x %04x %04x %04x" == "%08x: %04x %04x %04x %04x %04x %04x" + " %04x" {}
  lemma Step15() ensures "%08x: %04x %04x %04x %04x %04x %04x %04x %02x" == "%08x: %04x %04x %04x %04x %04x %04x %04x" + " %02x" {}
  lemma Step16() ensures "%08x: %04x %04x %04x %04x %04x %04x %04x %04x" == "%08x: %04x %04x %04x %04x %04x %04x %04x" + " %04x" {}
}

/**
 * The rule the template table follows: after the offset verb `%08x` and
 * ": ", the template of an N-byte line has one `%04x` per pair of bytes,
 * separated by single spaces, then a `%02x` when N is odd, and enough
 * spaces that the rendered text after ": " is always 41 characters wide.
 */
module Templates {
  import opened Fmt
  import opened FmtTable


  /** The table, indexed by the number of bytes on the line. */
  const FmtStrings: seq<string> := ["", Row1, Row2, Row3, Row4, Row5, Row6, Row7, Row8, Row9, Row10, Row11, Row12, Row13, Row14, Row15, Row16]


  /** The group verbs of an N-byte line (N >= 1). */
  function GroupVerbs(N: nat): string {
    if N <= 1 then "%02x" else if N == 2 then "%04x" else "%04x " + GroupVerbs(N - 2)
  }

  /**
   * The rendered width of those verbs: five characters per full pair
   * (four digits and a separator) less the last separator, and three more
   * for a trailing single byte.
   */
  function GroupWidth(N: nat): (w: nat)
    requires N >= 1
    ensures 5 * N - 2 <= 2 * w <= 5 * N - 1
  {
    5 * (N / 2) - 1 + 3 * (N % 2)
  }

  /** The template of an N-byte line. */
  function Template(N: nat): string
    requires 1 <= N <= 16
  {
    "%08x: " + GroupVerbs(N) + Spaces(41 - GroupWidth(N))
  }

  /** Each line one byte longer gains a verb at the right. */
  lemma {:induction false} GroupVerbsSnoc(N: nat)
    requires N >= 3
    ensures N % 2 == 1 ==> GroupVerbs(N) == GroupVerbs(N - 1) + " %02x"
    ensures N % 2 == 0 ==> GroupVerbs(N) == GroupVerbs(N - 2) + " %04x"
    decreases N
  {
    if N >= 5 {
      GroupVerbsSnoc(N - 2);
      var g := GroupVerbs(N - 3 - N % 2);
      if N % 2 == 1 {
        assert "%04x " + (g + " %02x") == ("%04x " + g) + " %02x";
      } else {
        assert "%04x " + (g + " %04x") == ("%04x " + g) + " %04x";
      }
    }
  }

  lemma Lead1() ensures "%08x: " + GroupVerbs(1) == "%08x: %02x" {}
  lemma Lead2() ensures "%08x: " + GroupVerbs(2) == "%08x: %04x" {}
  lemma Lead3() ensures "%08x: " + GroupVerbs(3) == "%08x: %04x %02x" { Lead2(); GroupVerbsSnoc(3); Step3(); }
  lemma Lead4() ensures "%08x: " + GroupVerbs(4) == "%08x: %04x %04x" { Lead2(); GroupVerbsSnoc(4); Step4(); }
  lemma Lead5() ensures "%08x: " + GroupVerbs(5) == "%08x: %04x %04x %02x" { Lead4(); GroupVerbsSnoc(5); Step5(); }
  lemma Lead6() ensures "%08x: " + GroupVerbs(6) == "%08x: %04x %04x %04x" { Lead4(); GroupVerbsSnoc(6); Step6(); }
  lemma Lead7() ensures "%08x: " + GroupVerbs(7) == "%08x: %04x %04x %04x %02x" { Lead6(); GroupVerbsSnoc(7); Step7(); }
  lemma Lead8() ensures "%08x: " + GroupVerbs(8) == "%08x: %04x %04x %04x %04x" { Lead6(); GroupVerbsSnoc(8); Step8(); }
  lemma Lead9() ensures "%08x: " + GroupVerbs(9) == "%08x: %04x %04x %04x %04x %02x" { Lead8(); GroupVerbsSnoc(9); Step9(); }
  lemma Lead10() ensures "%08x: " + GroupVerbs(10) == "%08x: %04x %04x %04x %04x %04x" { Lead8(); GroupVerbsSnoc(10); Step10(); }
  lemma Lead11() ensures "%08x: " + GroupVerbs(11) == "%08x: %04x %04x %04x %04x %04x %02x" { Lead10(); GroupVerbsSnoc(11); Step11(); }
  lemma Lead12() ensures "%08x: " + GroupVerbs(12) == "%08x: %04x %04x %04x %04x %04x %04x" { Lead10(); GroupVerbsSnoc(12); Step12(); }
  lemma Lead13() ensures "%08x: " + GroupVerbs(13) == "%08x: %04x %04x %04x %04x %04x %04x %02x" { Lead12(); GroupVerbsSnoc(13); Step13(); }
  lemma Lead14() ensures "%08x: " + GroupVerbs(14) == "%08x: %04x %04x %04x %04x %04x %04x %04x" { Lead12(); GroupVerbsSnoc(14); Step14(); }
  lemma Lead15() ensures "%08x: " + GroupVerbs(15) == "%08x: %04x %04x %04x %04x %04x %04x %04x %02x" { Lead14(); GroupVerbsSnoc(15); Step15(); }
  lemma Lead16() ensures "%08x: " + GroupVerbs(16) == "%08x: %04x %04x %04x %04x %04x %04x %04x %04x" { Lead14(); GroupVerbsSnoc(16); Step16(); }

  lemma Row1Rule() ensures FmtStrings[1] == Template(1) { Lead1(); Pad1(); }
  lemma Row2Rule() ensures FmtStrings[2] == Template(2) { Lead2(); Pad2(); }
  lemma Row3Rule() ensures FmtStrings[3] == Template(3) { Lead3(); Pad3(); }
  lemma Row4Rule() ensures FmtStrings[4] == Template(4) { Lead4(); Pad4(); }
  lemma Row5Rule() ensures FmtStrings[5] == Template(5) { Lead5(); Pad5(); }
  lemma Row6Rule() ensures FmtStrings[6] == Template(6) { Lead6(); Pad6(); }
  lemma Row7Rule() ensures FmtStrings[7] == Template(7) { Lead7(); Pad7(); }
  lemma Row8Rule() ensures FmtStrings[8] == Template(8) { Lead8(); Pad8(); }
  lemma Row9Rule() ensures FmtStrings[9] == Template(9) { Lead9(); Pad9(); }
  lemma Row10Rule() ensures FmtStrings[10] == Template(10) { Lead10(); Pad10(); }
  lemma Row11Rule() ensures FmtStrings[11] == Template(11) { Lead11(); Pad11(); }
  lemma Row12Rule() ensures FmtStrings[12] == Template(12) { Lead12(); Pad12(); }
  lemma Row13Rule() ensures FmtStrings[13] == Template(13) { Lead13(); Pad13(); }
  lemma Row14Rule() ensures FmtStrings[14] == Template(14) { Lead14(); Pad14(); }
  lemma Row15Rule() ensures FmtStrings[15] == Template(15) { Lead15(); Pad15(); }
  lemma Row16Rule() ensures FmtStrings[16] == Template(16) { Lead16(); Pad16(); }

  /** Every row of the table follows the rule. */
  lemma TableFollowsRule(N: nat)
    requires 1 <= N <= 16
    ensures FmtStrings[N] == Template(N)
  {
    if N == 1 { Row1Rule(); }
    else if N == 2 { Row2Rule(); }
    else if N == 3 { Row3Rule(); }
    else if N == 4 { Row4Rule(); }
    else if N == 5 { Row5Rule(); }
    else if N == 6 { Row6Rule(); }
    else if N == 7 { Row7Rule(); }
    else if N == 8 { Row8Rule(); }
    else if N == 9 { Row9Rule(); }
    else if N == 10 { Row10Rule(); }
    else if N == 11 { Row11Rule(); }
    else if N == 12 { Row12Rule(); }
    else if N == 13 { Row13Rule(); }
    else if N == 14 { Row14Rule(); }
    else if N == 15 { Row15Rule(); }
    else { Row16Rule(); }
  }

  /** The widths of the `%0Dx` verbs of a template, in the order `Sprintf` meets them. */
  function Verbs(t: string): seq<nat>
    decreases |t|
  {
    if t == [] then [] else if VerbAt(t) then [VerbWidth(t)] + Verbs(t[4..]) else Verbs(t[1..])
  }

  /** One 4-digit verb per pair of bytes, then a 2-digit verb for an odd last byte. */
  function PairWidths(N: nat): (ws: seq<nat>)
    ensures |ws| == N / 2 + N % 2
    ensures forall i :: 0 <= i < N / 2 ==> ws[i] == 4
    ensures N % 2 == 1 ==> ws[N / 2] == 2
  {
    seq(N / 2, _ => 4) + (if N % 2 == 1 then [2] else [])
  }

  /** Text with no '%' holds no verb. */
  lemma {:induction false} NoPercentNoVerbs(t: string)
    requires forall i :: 0 <= i < |t| ==> t[i] != '%'
    ensures Verbs(t) == []
    decreases |t|
  {
    if t != [] {
      assert !VerbAt(t);
      NoPercentNoVerbs(t[1..]);
    }
  }

  /** A verb followed by t contributes its width and then the verbs of t. */
  lemma VerbThen(v: string, t: string)
    requires |v| == 4 && VerbAt(v)
    ensures Verbs(v + t) == [VerbWidth(v)] + Verbs(t)
  {
    var s := v + t;
    assert s[0] == v[0] && s[1] == v[1] && s[2] == v[2] && s[3] == v[3];
    assert s[4..] == t;
  }

  /** A character other than '%' contributes nothing. */
  lemma PlainThen(c: char, t: string)
    requires c != '%'
    ensures Verbs([c] + t) == Verbs(t)
  {
    assert ([c] + t)[1..] == t;
  }

  /** The group verbs of an N-byte line are ⌊N/2⌋ verbs `%04x` and, for odd N, one `%02x`. */
  lemma {:induction false} GroupVerbsWidths(N: nat, t: string)
    requires N >= 1
    ensures Verbs(GroupVerbs(N) + t) == PairWidths(N) + Verbs(t)
    decreases N
  {
    if N <= 2 {
      ShortGroupVerbs(N, t);
    } else {
      GroupVerbsWidths(N - 2, t);
      GroupVerbsStep(N, t);
    }
  }

  lemma ShortGroupVerbs(N: nat, t: string)
    requires 1 <= N <= 2
    ensures Verbs(GroupVerbs(N) + t) == PairWidths(N) + Verbs(t)
  {
    if N == 1 {
      VerbThen("%02x", t);
      assert PairWidths(1) == [2];
    } else {
      VerbThen("%04x", t);
      assert PairWidths(2) == [4];
    }
  }

  /** A pair's verb and a space in front of the verbs for two bytes fewer. */
  lemma GroupVerbsStep(N: nat, t: string)
    requires N > 2
    requires Verbs(GroupVerbs(N - 2) + t) == PairWidths(N - 2) + Verbs(t)
    ensures Verbs(GroupVerbs(N) + t) == PairWidths(N) + Verbs(t)
  {
    var rest := GroupVerbs(N - 2) + t;
    GroupVerbsUnfold(N, t);
    VerbThen("%04x", [' '] + rest);
    PlainThen(' ', rest);
    PairWidthsCons(N);
  }

  /** The verbs of a line of more than two bytes: `%04x`, a space, the rest. */
  lemma GroupVerbsUnfold(N: nat, t: string)
    requires N > 2
    ensures GroupVerbs(N) + t == "%04x" + ([' '] + (GroupVerbs(N - 2) + t))
  {
    assert "%04x " == "%04x" + [' '];
  }

  lemma PairWidthsCons(N: nat)
    requires N > 2
    ensures PairWidths(N) == [4] + PairWidths(N - 2)
  {
    assert N / 2 == (N - 2) / 2 + 1 && N % 2 == (N - 2) % 2;
  }

  /**
   * Row N of the table asks for exactly the arguments `chunks` supplies for
   * an N-byte line: an 8-digit offset, a 4-digit verb per pair of bytes and
   * a 2-digit verb for an odd last byte.
   */
  lemma TemplateVerbs(N: nat)
    requires 1 <= N <= 16
    ensures Verbs(FmtStrings[N]) == [8] + PairWidths(N)
  {
    TableFollowsRule(N);
    var pad := Spaces(41 - GroupWidth(N));
    var g := GroupVerbs(N) + pad;
    assert Template(N) == "%08x" + ([':'] + ([' '] + g));
    VerbThen("%08x", [':'] + ([' '] + g));
    PlainThen(':', [' '] + g);
    PlainThen(' ', g);
    GroupVerbsWidths(N, pad);
    NoPercentNoVerbs(pad);
  }
}

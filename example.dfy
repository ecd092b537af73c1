/**
 * The line the encoder prints for the sixteen bytes of "totally\tradical!"
 * at offset 0, worked out from the layout functions: the offset in eight
 * digits, eight groups of four digits, two spaces of padding, and the ASCII
 * column with the tab shown as '.'.
 */
module Example {
  import opened Fmt
  import opened FmtTable
  import opened Templates
  import opened Layout

  /** The bytes of "totally\tradical!". */
  const Totally: seq<byte> := [116, 111, 116, 97, 108, 108, 121, 9, 114, 97, 100, 105, 99, 97, 108, 33]

  lemma OffsetZero()
    ensures Hex(0, 8) == "00000000"
  {
    assert Hex(0, 1) == "0";
    assert Hex(0, 2) == "00";
    assert Hex(0, 3) == "000";
    assert Hex(0, 4) == "0000";
    assert Hex(0, 5) == "00000";
    assert Hex(0, 6) == "000000";
    assert Hex(0, 7) == "0000000";
  }

  /** The groups from byte 2k on, for k = 7 down to 0. */
  lemma Groups7()
    ensures GroupText(Totally[14..]) == "6c21"
  {
    var b := Totally[14..];
    assert b == [108, 33];
    PairText(108, 33, "6c21");
  }

  lemma Groups6()
    ensures GroupText(Totally[12..]) == "6361" + " " + "6c21"
  {
    Groups7();
    var b := Totally[12..];
    assert b[..2] == [99, 97] && b[2..] == Totally[14..];
    PairText(99, 97, "6361");
  }

  lemma Groups5()
    ensures GroupText(Totally[10..]) == "6469" + " " + ("6361" + " " + "6c21")
  {
    Groups6();
    var b := Totally[10..];
    assert b[..2] == [100, 105] && b[2..] == Totally[12..];
    PairText(100, 105, "6469");
  }

  lemma Groups4()
    ensures GroupText(Totally[8..]) == "7261" + " " + ("6469" + " " + ("6361" + " " + "6c21"))
  {
    Groups5();
    var b := Totally[8..];
    assert b[..2] == [114, 97] && b[2..] == Totally[10..];
    PairText(114, 97, "7261");
  }

  lemma Groups3()
    ensures GroupText(Totally[6..]) == "7909" + " " + ("7261" + " " + ("6469" + " " + ("6361" + " " + "6c21")))
  {
    Groups4();
    var b := Totally[6..];
    assert b[..2] == [121, 9] && b[2..] == Totally[8..];
    PairText(121, 9, "7909");
  }

  lemma Groups2()
    ensures GroupText(Totally[4..]) == "6c6c" + " " + ("7909" + " " + ("7261" + " " + ("6469" + " " + ("6361" + " " + "6c21"))))
  {
    Groups3();
    var b := Totally[4..];
    assert b[..2] == [108, 108] && b[2..] == Totally[6..];
    PairText(108, 108, "6c6c");
  }

  lemma Groups1()
    ensures GroupText(Totally[2..]) == "7461" + " " + ("6c6c" + " " + ("7909" + " " + ("7261" + " " + ("6469" + " " + ("6361" + " " + "6c21")))))
  {
    Groups2();
    var b := Totally[2..];
    assert b[..2] == [116, 97] && b[2..] == Totally[4..];
    PairText(116, 97, "7461");
  }

  lemma Groups0()
    ensures GroupText(Totally[0..]) == "746f" + " " + ("7461" + " " + ("6c6c" + " " + ("7909" + " " + ("7261" + " " + ("6469" + " " + ("6361" + " " + "6c21"))))))
  {
    Groups1();
    var b := Totally[0..];
    assert b[..2] == [116, 111] && b[2..] == Totally[2..];
    PairText(116, 111, "746f");
  }

  lemma TotallyGroups()
    ensures GroupColumns(Totally) == "746f" + " " + ("7461" + " " + ("6c6c" + " " + ("7909" + " " + ("7261" + " " + ("6469" + " " + ("6361" + " " + "6c21"))))))
  {
    Groups0();
    assert Totally[0..] == Totally;
    GroupTextColumns(Totally);
  }

  /** Two bytes print as the four digits s. */
  lemma PairText(x: byte, y: byte, s: string)
    requires |s| == 4 && s[0] == HexDigit(x / 16) && s[1] == HexDigit(x % 16)
    requires s[2] == HexDigit(y / 16) && s[3] == HexDigit(y % 16)
    ensures HexBytes([x, y]) == s
  {
    PairDigits([x, y]);
  }

  lemma TotallyAscii()
    ensures Chars(AsciiColumn(Totally)) == "totally.radical!"
  {
  }

  /**
   * The whole line: "00000000: 746f 7461 6c6c 7909 7261 6469 6361 6c21",
   * two spaces, "totally.radical!" and a newline, piece by piece.
   */
  lemma TotallyLine()
    ensures Line(0, Totally) == "00000000" + ": " + ("746f" + " " + ("7461" + " " + ("6c6c" + " " + ("7909" + " " + ("7261" + " " + ("6469" + " " + ("6361" + " " + "6c21"))))))) + "  " + ("totally.radical!" + "\n")
  {
    OffsetZero();
    TotallyGroups();
    TotallyAscii();
    assert Spaces(41 - GroupWidth(16)) == "  ";
  }
}

/**
 * StringConverter.bytesToHex: each byte as two upper-case hex digits followed by a
 * space, the trailing space then removed by String.trim. Proved against an
 * independent reading: the output is the hex pairs joined by single spaces, and
 * reading those pairs back recovers the bytes.
 */
module StringConverter {
  import opened Wrappers
  import opened Charsets

  /** The value %X prints for a byte: negative bytes are taken modulo 2^8. */
  function Unsigned(b: JByte): (u: nat)
    ensures u < 256
    ensures b >= 0 ==> u == b as int
    ensures b < 0 ==> u == b as int + 256
  {
    if b < 0 then b as int + 256 else b as int
  }

  /** The byte whose unsigned value is `u`. */
  function FromUnsigned(u: nat): (b: JByte)
    requires u < 256
    ensures Unsigned(b) == u
    ensures forall x: JByte :: Unsigned(x) == u ==> x == b
  {
    if u < 128 then u as JByte else (u - 256) as JByte
  }

  predicate IsHexDigit(c: char)
  {
    '0' <= c <= '9' || 'A' <= c <= 'F'
  }

  /** The upper-case hex digit for 0..15. */
  function HexDigit(d: nat): (c: char)
    requires d < 16
    ensures IsHexDigit(c)
  {
    if d < 10 then ('0' as int + d) as char else ('A' as int + d - 10) as char
  }

  function DigitValue(c: char): (d: nat)
    requires IsHexDigit(c)
    ensures d < 16 && HexDigit(d) == c
  {
    if c <= '9' then c as int - '0' as int else c as int - 'A' as int + 10
  }

  /** String.format("%02X", b): always exactly two digits. */
  function HexPair(b: JByte): (s: string)
    ensures |s| == 2 && IsHexDigit(s[0]) && IsHexDigit(s[1])
    ensures 16 * DigitValue(s[0]) + DigitValue(s[1]) == Unsigned(b)
  {
    [HexDigit(Unsigned(b) / 16), HexDigit(Unsigned(b) % 16)]
  }

  /** The StringBuilder's contents after the loop: "%02X " for every byte. */
  function Rendered(bs: seq<JByte>): string
  {
    if bs == [] then "" else HexPair(bs[0]) + " " + Rendered(bs[1..])
  }

  /** String.trim: drops the leading and trailing characters at or below U+0020. */
  function TrimStart(s: string): string
  {
    if s != [] && s[0] <= ' ' then TrimStart(s[1..]) else s
  }

  function TrimEnd(s: string): string
  {
    if s != [] && s[|s| - 1] <= ' ' then TrimEnd(s[..|s| - 1]) else s
  }

  function Trim(s: string): string
  {
    TrimEnd(TrimStart(s))
  }

  /** The hex pairs joined by single spaces. */
  function Joined(bs: seq<JByte>): string
  {
    if |bs| == 0 then ""
    else if |bs| == 1 then HexPair(bs[0])
    else HexPair(bs[0]) + " " + Joined(bs[1..])
  }

  /** Reads a string of space-separated upper-case hex pairs back into bytes. */
  function ParseHex(s: string): Option<seq<JByte>>
    decreases |s|
  {
    if s == [] then Some([])
    else if |s| < 2 || !IsHexDigit(s[0]) || !IsHexDigit(s[1]) then None
    else
      var b := FromUnsigned(16 * DigitValue(s[0]) + DigitValue(s[1]));
      if |s| == 2 then Some([b])
      else if s[2] != ' ' || |s| == 3 then None
      else
        match ParseHex(s[3..])
        case None => None
        case Some(rest) => Some([b] + rest)
  }

  /** Only hex digits and spaces. */
  ghost predicate HexText(s: string)
  {
    forall k :: 0 <= k < |s| ==> IsHexDigit(s[k]) || s[k] == ' '
  }

  lemma {:induction false} RenderedAppend(bs: seq<JByte>, b: JByte)
    ensures Rendered(bs + [b]) == Rendered(bs) + HexPair(b) + " "
  {
    if bs != [] {
      assert (bs + [b])[1..] == bs[1..] + [b];
      RenderedAppend(bs[1..], b);
    }
  }

  lemma {:induction false} RenderedIsJoinedWithSpace(bs: seq<JByte>)
    requires bs != []
    ensures Rendered(bs) == Joined(bs) + " "
  {
    if |bs| > 1 {
      RenderedIsJoinedWithSpace(bs[1..]);
    }
  }

  /**
   * The joined text of n >= 1 bytes has 3n - 1 characters: byte i's two digits at
   * 3i and 3i + 1, a single space at 3i + 2 between pairs, only hex digits and
   * spaces, and no space at either end.
   */
  lemma {:induction false} JoinedShape(bs: seq<JByte>)
    ensures |Joined(bs)| == if bs == [] then 0 else 3 * |bs| - 1
    ensures forall i :: 0 <= i < |bs| ==> Joined(bs)[3 * i..3 * i + 2] == HexPair(bs[i])
    ensures forall i :: 0 <= i < |bs| - 1 ==> Joined(bs)[3 * i + 2] == ' '
    ensures HexText(Joined(bs))
    ensures bs != [] ==> IsHexDigit(Joined(bs)[0]) && IsHexDigit(Joined(bs)[|Joined(bs)| - 1])
  {
    if |bs| > 1 {
      var tail := Joined(bs[1..]);
      JoinedShape(bs[1..]);
      var s := Joined(bs);
      assert s == HexPair(bs[0]) + " " + tail;
      forall i | 1 <= i < |bs|
        ensures s[3 * i..3 * i + 2] == HexPair(bs[i])
      {
        assert s[3 * i..3 * i + 2] == tail[3 * (i - 1)..3 * (i - 1) + 2];
      }
      forall i | 1 <= i < |bs| - 1
        ensures s[3 * i + 2] == ' '
      {
        assert s[3 * i + 2] == tail[3 * (i - 1) + 2];
      }
      forall k | 3 <= k < |s|
        ensures IsHexDigit(s[k]) || s[k] == ' '
      {
        assert s[k] == tail[k - 3];
      }
    }
  }

  /** trim removes exactly the one trailing space the loop leaves. */
  lemma TrimmedRendered(bs: seq<JByte>)
    ensures Trim(Rendered(bs)) == Joined(bs)
  {
    if bs != [] {
      RenderedIsJoinedWithSpace(bs);
      JoinedShape(bs);
      var j := Joined(bs);
      assert (j + " ")[0] == j[0];
      assert TrimStart(j + " ") == j + " ";
      assert (j + " ")[..|j + " "| - 1] == j;
      assert TrimEnd(j + " ") == TrimEnd(j);
      assert j[|j| - 1] > ' ';
    }
  }

  /** Reading the output back as space-separated hex pairs recovers the bytes. */
  lemma {:induction false} ParseJoined(bs: seq<JByte>)
    ensures ParseHex(Joined(bs)) == Some(bs)
  {
    if |bs| == 1 {
      var s := HexPair(bs[0]);
      assert Joined(bs) == s;
      assert FromUnsigned(16 * DigitValue(s[0]) + DigitValue(s[1])) == bs[0];
      assert bs == [bs[0]];
    } else if |bs| > 1 {
      var s := Joined(bs);
      JoinedShape(bs[1..]);
      ParseJoined(bs[1..]);
      assert s[3..] == Joined(bs[1..]);
      assert s[..2] == HexPair(bs[0]);
      assert bs == [bs[0]] + bs[1..];
    }
  }

  /**
   * bytesToHex: appends "%02X " for every byte, then trims. For n >= 1 bytes the
   * result has 3n - 1 characters; it is empty for no bytes.
   */
  method BytesToHex(bytes: array<JByte>) returns (r: string)
    ensures r == Joined(bytes[..])
    ensures |r| == if bytes.Length == 0 then 0 else 3 * bytes.Length - 1
    ensures forall i :: 0 <= i < bytes.Length ==> r[3 * i..3 * i + 2] == HexPair(bytes[i])
    ensures forall i :: 0 <= i < bytes.Length - 1 ==> r[3 * i + 2] == ' '
    ensures HexText(r)
    ensures r != [] ==> r[0] != ' ' && r[|r| - 1] != ' '
    ensures ParseHex(r) == Some(bytes[..])
  {
    var sb: string := "";
    for i := 0 to bytes.Length
      invariant sb == Rendered(bytes[..i])
    {
      assert bytes[..i + 1] == bytes[..i] + [bytes[i]];
      RenderedAppend(bytes[..i], bytes[i]);
      sb := sb + HexPair(bytes[i]) + " ";
    }
    assert bytes[..] == bytes[..bytes.Length];
    TrimmedRendered(bytes[..]);
    r := Trim(sb);
    JoinedShape(bytes[..]);
    ParseJoined(bytes[..]);
  }
}

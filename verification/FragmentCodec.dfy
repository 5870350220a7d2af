/** The fragment header carried in a service call: "FRAG:<msg_id>:<index>:<total>". */
module FragmentCodec {
  import opened Base
  import opened Decimal

  datatype FragmentInfo = FragmentInfo(msgId: u64, total: u32, index: u32)

  const PREFIX := "FRAG:"

  function Encode(info: FragmentInfo): string {
    PREFIX + Join([Show(info.msgId), Show(info.index), Show(info.total)], ':')
  }

  function Decode(s: string): Option<FragmentInfo> {
    if !(PREFIX <= s) then None
    else
      var parts := Split(s[|PREFIX|..], ':');
      if |parts| != 3 then None
      else
        var msgId := ParseUnsigned(parts[0], TWO_TO_THE_64);
        var index := ParseUnsigned(parts[1], TWO_TO_THE_32);
        var total := ParseUnsigned(parts[2], TWO_TO_THE_32);
        if msgId.None? || index.None? || total.None? then None
        else Some(FragmentInfo(msgId.value, total.value, index.value))
  }

  /** s is a header whose three fields are notations of the numbers in info. */
  ghost predicate IsHeader(s: string, info: FragmentInfo) {
    exists a, b, c :: s == HeaderOf(a, b, c)
      && Denotes(a, info.msgId) && Denotes(b, info.index) && Denotes(c, info.total)
  }

  function HeaderOf(a: string, b: string, c: string): string {
    PREFIX + (a + [':'] + (b + [':'] + c))
  }

  lemma NoColon(s: string, n: nat)
    requires Denotes(s, n)
    ensures ':' !in s
  {
  }

  lemma SplitHeader(a: string, b: string, c: string)
    requires ':' !in a && ':' !in b && ':' !in c
    ensures PREFIX <= HeaderOf(a, b, c)
    ensures Split(HeaderOf(a, b, c)[|PREFIX|..], ':') == [a, b, c]
  {
    assert HeaderOf(a, b, c)[|PREFIX|..] == a + [':'] + (b + [':'] + c);
    SplitFirst(a, ':', b + [':'] + c);
    SplitFirst(b, ':', c);
    SplitPlain(c, ':');
  }

  /** The parser accepts exactly the headers, and reads them right. */
  lemma DecodeAcceptsExactlyHeaders(s: string, info: FragmentInfo)
    ensures Decode(s) == Some(info) <==> IsHeader(s, info)
  {
    if IsHeader(s, info) {
      var a, b, c :| s == HeaderOf(a, b, c)
        && Denotes(a, info.msgId) && Denotes(b, info.index) && Denotes(c, info.total);
      NoColon(a, info.msgId);
      NoColon(b, info.index);
      NoColon(c, info.total);
      SplitHeader(a, b, c);
      ParseUnsignedReads(a, TWO_TO_THE_64, info.msgId);
      ParseUnsignedReads(b, TWO_TO_THE_32, info.index);
      ParseUnsignedReads(c, TWO_TO_THE_32, info.total);
    }
    if Decode(s) == Some(info) {
      var body := s[|PREFIX|..];
      var parts := Split(body, ':');
      JoinSplit(body, ':');
      assert Join(parts, ':') == parts[0] + [':'] + (parts[1] + [':'] + Join(parts[2..], ':'));
      assert s == PREFIX + body == HeaderOf(parts[0], parts[1], parts[2]);
      ParseUnsignedReads(parts[0], TWO_TO_THE_64, info.msgId);
      ParseUnsignedReads(parts[1], TWO_TO_THE_32, info.index);
      ParseUnsignedReads(parts[2], TWO_TO_THE_32, info.total);
    }
  }

  lemma EncodeIsHeader(info: FragmentInfo)
    ensures Encode(info) == HeaderOf(Show(info.msgId), Show(info.index), Show(info.total))
  {
    var a, b, c := Show(info.msgId), Show(info.index), Show(info.total);
    assert [a, b, c][1..] == [b, c] && [b, c][1..] == [c];
    assert Join([b, c], ':') == b + [':'] + c;
    assert Join([a, b, c], ':') == a + [':'] + (b + [':'] + c);
  }

  /** Decoding undoes encoding for every header. */
  lemma DecodeEncode(info: FragmentInfo)
    ensures Decode(Encode(info)) == Some(info)
  {
    ShowDenotes(info.msgId);
    ShowDenotes(info.index);
    ShowDenotes(info.total);
    EncodeIsHeader(info);
    DecodeAcceptsExactlyHeaders(Encode(info), info);
  }

  predicate AllCanonical(fields: seq<string>) {
    forall i :: 0 <= i < |fields| ==> Canonical(fields[i])
  }

  /** The printer is canonical, the parser is lenient: encoding a decoded header gives
      it back exactly if no field has a plus sign or a leading zero. */
  lemma EncodeDecodeIff(s: string, info: FragmentInfo)
    requires Decode(s) == Some(info)
    ensures PREFIX <= s && (Encode(info) == s <==> AllCanonical(Split(s[|PREFIX|..], ':')))
  {
    DecodeAcceptsExactlyHeaders(s, info);
    var a, b, c :| s == HeaderOf(a, b, c)
      && Denotes(a, info.msgId) && Denotes(b, info.index) && Denotes(c, info.total);
    HeaderFields(s, a, b, c, info);
    CanonicalIffShown(a, info.msgId);
    CanonicalIffShown(b, info.index);
    CanonicalIffShown(c, info.total);
    EncodeIsHeader(info);
    ShowDenotes(info.msgId);
    ShowDenotes(info.index);
    ShowDenotes(info.total);
    HeaderFields(Encode(info), Show(info.msgId), Show(info.index), Show(info.total), info);
  }

  lemma HeaderFields(s: string, a: string, b: string, c: string, info: FragmentInfo)
    requires s == HeaderOf(a, b, c)
    requires Denotes(a, info.msgId) && Denotes(b, info.index) && Denotes(c, info.total)
    ensures PREFIX <= s && Split(s[|PREFIX|..], ':') == [a, b, c]
    ensures AllCanonical(Split(s[|PREFIX|..], ':')) <==> Canonical(a) && Canonical(b) && Canonical(c)
  {
    NoColon(a, info.msgId);
    NoColon(b, info.index);
    NoColon(c, info.total);
    SplitHeader(a, b, c);
    var fields := [a, b, c];
    assert fields[0] == a && fields[1] == b && fields[2] == c;
  }

  /** A header that does not come back. */
  lemma EncodeDecodeIsNotIdentity()
    ensures var s := "FRAG:+7:0:02";
      Decode(s) == Some(FragmentInfo(7, 2, 0)) && Encode(FragmentInfo(7, 2, 0)) != s
  {
    assert "FRAG:+7:0:02" == HeaderOf("+7", "0", "02");
    assert Denotes("+7", 7) && Denotes("0", 0) by {
      assert ReadFrom(0, "7") == ReadFrom(7, "") && ReadFrom(0, "0") == ReadFrom(0, "");
    }
    assert Denotes("02", 2) by {
      assert ReadFrom(0, "02") == ReadFrom(0, "2") == ReadFrom(2, "");
    }
    DecodeAcceptsExactlyHeaders("FRAG:+7:0:02", FragmentInfo(7, 2, 0));
    assert Encode(FragmentInfo(7, 2, 0))[5] == '7';
  }
}

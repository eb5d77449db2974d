/** The handshake as the client sees it: texts are decoded, which drops a leading byte-order mark. */
module HandshakeTexts {
  import opened Bytes
  import opened ControlCodec
  import opened Handshake
  import Utf8

  /** Syntax rules of names that are used as paths, and of contract texts. */
  datatype NameRules = NameRules(routeName: string -> bool, contractText: string -> bool, methodName: string -> bool)

  /** What the decoder returns of a handshake; its routes are checked and dropped. */
  datatype Greeting = Greeting(shmPrefix: string, capabilityFlags: nat, serverId: string, serverInstanceId: string)

  predicate Printable(s: string) {
    forall i :: 0 <= i < |s| ==> 0x20 <= s[i] as int < 0x7F || 0xA0 <= s[i] as int
  }

  predicate LowerHexHash(s: string) {
    |s| == 64 && forall i :: 0 <= i < |s| ==> '0' <= s[i] <= '9' || 'a' <= s[i] <= 'f'
  }

  /** The text decodes, and what it decodes to satisfies `p`. */
  predicate Reads(t: seq<byte>, p: string -> bool) {
    var s := Utf8.DecodeText(t);
    s.Some? && p(s.value)
  }

  /** The checks of the decoder, as checks on the bytes of a text. */
  function Wire(names: NameRules): TextRules {
    TextRules(
      t => Utf8.DecodeText(t).Some?,
      t => Reads(t, s => s != []),
      t => Reads(t, names.routeName),
      t => Reads(t, s => s != [] && Printable(s) && |Utf8.Encode(s)| <= MAX_TEXT),
      t => Reads(t, names.contractText),
      t => Reads(t, LowerHexHash),
      t => Reads(t, names.methodName))
  }

  function Text(t: seq<byte>): string {
    var s := Utf8.DecodeText(t);
    if s.Some? then s.value else []
  }

  function GreetingOf(m: Metadata): Greeting {
    Greeting(Text(m.shmPrefix), m.capabilityFlags, Text(m.serverId), Text(m.serverInstanceId))
  }

  /** The decoder. */
  method DecodeServerIpcHandshake(names: NameRules, payload: seq<byte>) returns (r: Option<Greeting>)
    ensures r == match ParseMetadata(Wire(names), payload) case None => None case Some(m) => Some(GreetingOf(m))
    ensures r.Some? <==> exists m :: MetadataOk(Wire(names), m) && EncodeMetadata(Wire(names), m) == payload
    ensures r.Some? ==> r.value.serverId != [] && r.value.serverInstanceId != []
  {
    ParseExact(Wire(names), payload);
    var m := DecodeServerHandshake(Wire(names), payload);
    if m.None? { return None; }
    r := Some(GreetingOf(m.value));
  }

  // ----- writing what was read

  /** The bytes a text is written as once it has been read. */
  function Rewritten(t: seq<byte>): seq<byte> {
    Utf8.Encode(Text(t))
  }

  function RewrittenMethod(m: MethodEntry): MethodEntry {
    MethodEntry(Rewritten(m.name), m.index)
  }

  function RewrittenRoute(r: RouteEntry): RouteEntry {
    RouteEntry(seq(|r.texts|, i requires 0 <= i < |r.texts| => Rewritten(r.texts[i])), r.maxPayloadSize,
               seq(|r.methods|, i requires 0 <= i < |r.methods| => RewrittenMethod(r.methods[i])))
  }

  function RewrittenMetadata(m: Metadata): Metadata {
    Metadata(Rewritten(m.shmPrefix), m.capabilityFlags, Rewritten(m.serverId), Rewritten(m.serverInstanceId),
             seq(|m.routes|, i requires 0 <= i < |m.routes| => RewrittenRoute(m.routes[i])))
  }

  /** No text of the handshake starts with the byte-order mark. */
  ghost predicate RouteUnmarked(r: RouteEntry) {
    && (forall i :: 0 <= i < |r.texts| ==> !Utf8.Marked(r.texts[i]))
    && (forall i :: 0 <= i < |r.methods| ==> !Utf8.Marked(r.methods[i].name))
  }

  ghost predicate Unmarked(m: Metadata) {
    && !Utf8.Marked(m.shmPrefix) && !Utf8.Marked(m.serverId) && !Utf8.Marked(m.serverInstanceId)
    && forall i :: 0 <= i < |m.routes| ==> RouteUnmarked(m.routes[i])
  }

  lemma TextKept(names: NameRules, t: seq<byte>)
    requires TextOk(Wire(names), t)
    ensures Rewritten(t) == t <==> !Utf8.Marked(t)
  {
    Utf8.DecodeTextExact(t);
  }

  lemma RouteKept(names: NameRules, r: RouteEntry)
    requires RouteOk(Wire(names), r)
    ensures RewrittenRoute(r) == r <==> RouteUnmarked(r)
  {
    var w := RewrittenRoute(r);
    forall i | 0 <= i < |r.texts| ensures w.texts[i] == r.texts[i] <==> !Utf8.Marked(r.texts[i]) {
      assert TextOk(Wire(names), r.texts[i]);
      TextKept(names, r.texts[i]);
    }
    forall i | 0 <= i < |r.methods| ensures w.methods[i] == r.methods[i] <==> !Utf8.Marked(r.methods[i].name) {
      assert MethodOk(Wire(names), r.methods[i]);
      TextKept(names, r.methods[i].name);
    }
    if RouteUnmarked(r) { assert w.texts == r.texts && w.methods == r.methods; }
  }

  lemma MetadataKept(names: NameRules, m: Metadata)
    requires MetadataOk(Wire(names), m)
    ensures RewrittenMetadata(m) == m <==> Unmarked(m)
  {
    var w := RewrittenMetadata(m);
    TextKept(names, m.shmPrefix);
    TextKept(names, m.serverId);
    TextKept(names, m.serverInstanceId);
    forall i | 0 <= i < |m.routes| ensures w.routes[i] == m.routes[i] <==> RouteUnmarked(m.routes[i]) {
      assert RouteOk(Wire(names), m.routes[i]);
      RouteKept(names, m.routes[i]);
    }
    if Unmarked(m) { assert w.routes == m.routes; }
  }

  /**
   * An accepted payload is the encoding of the texts that were read from it exactly if none of
   * its texts starts with the byte-order mark.
   */
  lemma HandshakeRewritesExactly(names: NameRules, payload: seq<byte>)
    requires ParseMetadata(Wire(names), payload).Some?
    ensures var m := ParseMetadata(Wire(names), payload).value;
            var w := RewrittenMetadata(m);
            MetadataOk(Wire(names), w) && EncodeMetadata(Wire(names), w) == payload <==> Unmarked(m)
  {
    ParseSound(Wire(names), payload);
    var m := ParseMetadata(Wire(names), payload).value;
    MetadataKept(names, m);
    var w := RewrittenMetadata(m);
    if MetadataOk(Wire(names), w) && EncodeMetadata(Wire(names), w) == payload { ParseComplete(Wire(names), w); }
  }

  /** A handshake without routes. */
  function Plain(serverId: seq<byte>): Metadata {
    Metadata([], 0, serverId, [0x69], [])
  }

  lemma PlainIsOk(names: NameRules, serverId: seq<byte>)
    requires WireText(serverId) && Reads(serverId, s => s != [])
    ensures MetadataOk(Wire(names), Plain(serverId))
  {
    assert Utf8.Encode("i") == [0x69] by { assert "i"[1..] == []; }
    Utf8.DecodeEncoded("i");
    assert Utf8.DecodeText([0x69]) == Some("i");
    assert Utf8.DecodeText([]) == Some([]);
  }

  /** The mark is lost: two payloads that differ in it are accepted and give one greeting. */
  lemma MarkIsLost(names: NameRules, s: string)
    requires s != [] && s[0] as int != 0xFEFF && |Utf8.Encode(s)| <= 252
    ensures var plain, marked := Plain(Utf8.Encode(s)), Plain(Utf8.MARK + Utf8.Encode(s));
            && MetadataOk(Wire(names), plain) && MetadataOk(Wire(names), marked)
            && EncodeMetadata(Wire(names), plain) != EncodeMetadata(Wire(names), marked)
            && GreetingOf(plain) == GreetingOf(marked)
  {
    var t := Utf8.Encode(s);
    var marked := Utf8.MARK + t;
    Utf8.DecodeEncoded(s);
    Utf8.MarkIsFirst(s);
    assert marked[3..] == t;
    assert Utf8.DecodeText(t) == Some(s) && Utf8.DecodeText(marked) == Some(s);
    PlainIsOk(names, t);
    PlainIsOk(names, marked);
    ParseComplete(Wire(names), Plain(t));
    ParseComplete(Wire(names), Plain(marked));
  }
}

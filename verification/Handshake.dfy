/** The server's handshake metadata: its grammar, and the decoder that walks it with an offset. */
module Handshake {
  import opened Bytes
  import opened ControlCodec

  const CAP_SHM_REQUEST: nat := 8
  const CAP_SHM_RESPONSE: nat := 16

  /** Text checks that depend on character tables: UTF-8 validity and the field syntax rules. */
  datatype TextRules = TextRules(
    utf8: seq<byte> -> bool,
    identity: seq<byte> -> bool,
    routeName: seq<byte> -> bool,
    routeUid: seq<byte> -> bool,
    contractText: seq<byte> -> bool,
    fingerprint: seq<byte> -> bool,
    methodName: seq<byte> -> bool)

  datatype MethodEntry = MethodEntry(name: seq<byte>, index: nat)
  datatype RouteEntry = RouteEntry(texts: seq<seq<byte>>, maxPayloadSize: nat, methods: seq<MethodEntry>)
  datatype Metadata = Metadata(shmPrefix: seq<byte>, capabilityFlags: nat,
                               serverId: seq<byte>, serverInstanceId: seq<byte>, routes: seq<RouteEntry>)

  // ----- the grammar

  ghost predicate TextOk(rules: TextRules, t: seq<byte>) { WireText(t) && rules.utf8(t) }

  ghost predicate MethodOk(rules: TextRules, m: MethodEntry) {
    TextOk(rules, m.name) && rules.methodName(m.name) && m.index <= 0xffff
  }

  /** Name, uid, three contract texts and two fingerprints. */
  predicate RouteTextsOk(rules: TextRules, t: seq<seq<byte>>)
    requires |t| == 7
  {
    && rules.routeName(t[0]) && rules.routeUid(t[1])
    && rules.contractText(t[2]) && rules.contractText(t[3]) && rules.contractText(t[4])
    && rules.fingerprint(t[5]) && rules.fingerprint(t[6])
  }

  ghost predicate AllTexts(rules: TextRules, texts: seq<seq<byte>>) {
    forall i :: 0 <= i < |texts| ==> TextOk(rules, texts[i])
  }

  ghost predicate AllMethods(rules: TextRules, methods: seq<MethodEntry>) {
    forall i :: 0 <= i < |methods| ==> MethodOk(rules, methods[i])
  }

  ghost predicate RouteOk(rules: TextRules, r: RouteEntry) {
    && |r.texts| == 7 && AllTexts(rules, r.texts) && RouteTextsOk(rules, r.texts)
    && 0 < r.maxPayloadSize <= MAX_SAFE_INTEGER
    && |r.methods| <= 0xffff && AllMethods(rules, r.methods)
  }

  ghost predicate AllRoutes(rules: TextRules, routes: seq<RouteEntry>) {
    forall i :: 0 <= i < |routes| ==> RouteOk(rules, routes[i])
  }

  /** Only the two known capability bits may be set. */
  predicate KnownCapabilities(flags: nat) {
    flags == 0 || flags == CAP_SHM_REQUEST || flags == CAP_SHM_RESPONSE || flags == CAP_SHM_REQUEST + CAP_SHM_RESPONSE
  }

  ghost predicate MetadataOk(rules: TextRules, m: Metadata) {
    && TextOk(rules, m.shmPrefix) && KnownCapabilities(m.capabilityFlags)
    && TextOk(rules, m.serverId) && rules.identity(m.serverId)
    && TextOk(rules, m.serverInstanceId) && rules.identity(m.serverInstanceId)
    && |m.routes| <= 0xffff && AllRoutes(rules, m.routes)
  }

  ghost function EncodeMethods(rules: TextRules, methods: seq<MethodEntry>): seq<byte>
    requires AllMethods(rules, methods)
  {
    if methods == [] then [] else
      assert MethodOk(rules, methods[0]);
      EncodeText(methods[0].name) + LE(methods[0].index, 2) + EncodeMethods(rules, methods[1..])
  }

  lemma TextsAreWireTexts(rules: TextRules, texts: seq<seq<byte>>)
    requires AllTexts(rules, texts)
    ensures forall i :: 0 <= i < |texts| ==> WireText(texts[i])
  {
    forall i | 0 <= i < |texts| ensures WireText(texts[i]) { assert TextOk(rules, texts[i]); }
  }

  ghost function EncodeRoute(rules: TextRules, r: RouteEntry): seq<byte>
    requires RouteOk(rules, r)
  {
    TextsAreWireTexts(rules, r.texts);
    EncodeTexts(r.texts) + (LE(r.maxPayloadSize, 8) + (LE(|r.methods|, 2) + EncodeMethods(rules, r.methods)))
  }

  ghost function EncodeRoutes(rules: TextRules, routes: seq<RouteEntry>): seq<byte>
    requires AllRoutes(rules, routes)
  {
    if routes == [] then [] else
      assert RouteOk(rules, routes[0]);
      EncodeRoute(rules, routes[0]) + EncodeRoutes(rules, routes[1..])
  }

  ghost function EncodeMetadata(rules: TextRules, m: Metadata): seq<byte>
    requires MetadataOk(rules, m)
  {
    EncodeText(m.shmPrefix) + (LE(m.capabilityFlags, 2) + (EncodeText(m.serverId)
      + (EncodeText(m.serverInstanceId) + (LE(|m.routes|, 2) + EncodeRoutes(rules, m.routes)))))
  }

  // ----- readers: each takes its item off the front or fails

  function TakeInt(s: seq<byte>, width: nat): (r: Option<(nat, seq<byte>)>)
    ensures r.Some? ==> |r.value.1| + width == |s|
  {
    if |s| < width then None else Some((FromLE(s[..width]), s[width..]))
  }

  function TakeText(rules: TextRules, s: seq<byte>): (r: Option<(seq<byte>, seq<byte>)>)
    ensures r.Some? ==> |r.value.1| < |s|
  {
    if |s| < 1 then None else
      var end: int := 1 + (s[0] as int);
      if |s| < end || !rules.utf8(s[1..end]) then None else Some((s[1..end], s[end..]))
  }

  function TakeTexts(rules: TextRules, s: seq<byte>, count: nat): Option<(seq<seq<byte>>, seq<byte>)> {
    if count == 0 then Some(([], s)) else
      match TakeText(rules, s)
      case None => None
      case Some((t, rest)) =>
        match TakeTexts(rules, rest, count - 1)
        case None => None
        case Some((ts, tail)) => Some(([t] + ts, tail))
  }

  function TakeMethod(rules: TextRules, s: seq<byte>): Option<(MethodEntry, seq<byte>)> {
    match TakeText(rules, s)
    case None => None
    case Some((name, rest)) =>
      match TakeInt(rest, 2)
      case None => None
      case Some((index, tail)) => if rules.methodName(name) then Some((MethodEntry(name, index), tail)) else None
  }

  function TakeMethods(rules: TextRules, s: seq<byte>, count: nat): Option<(seq<MethodEntry>, seq<byte>)> {
    if count == 0 then Some(([], s)) else
      match TakeMethod(rules, s)
      case None => None
      case Some((m, rest)) =>
        match TakeMethods(rules, rest, count - 1)
        case None => None
        case Some((ms, tail)) => Some(([m] + ms, tail))
  }

  lemma {:induction false} TakeTextsCount(rules: TextRules, s: seq<byte>, count: nat)
    requires TakeTexts(rules, s, count).Some?
    ensures |TakeTexts(rules, s, count).value.0| == count
  {
    if count > 0 { TakeTextsCount(rules, TakeText(rules, s).value.1, count - 1); }
  }

  function TakeRoute(rules: TextRules, s: seq<byte>): Option<(RouteEntry, seq<byte>)> {
    match TakeTexts(rules, s, 7)
    case None => None
    case Some((texts, s1)) =>
      match TakeInt(s1, 8)
      case None => None
      case Some((size, s2)) =>
        if size > MAX_SAFE_INTEGER then None else
        match TakeInt(s2, 2)
        case None => None
        case Some((count, s3)) =>
          TakeTextsCount(rules, s, 7);
          if !RouteTextsOk(rules, texts) || size <= 0 then None else
          match TakeMethods(rules, s3, count)
          case None => None
          case Some((methods, tail)) => Some((RouteEntry(texts, size, methods), tail))
  }

  function TakeRoutes(rules: TextRules, s: seq<byte>, count: nat): Option<(seq<RouteEntry>, seq<byte>)>
    decreases count
  {
    if count == 0 then Some(([], s)) else
      match TakeRoute(rules, s)
      case None => None
      case Some((r, rest)) =>
        match TakeRoutes(rules, rest, count - 1)
        case None => None
        case Some((rs, tail)) => Some(([r] + rs, tail))
  }

  function ParseMetadata(rules: TextRules, s: seq<byte>): Option<Metadata> {
    match TakeText(rules, s)
    case None => None
    case Some((prefix, s1)) =>
      match TakeInt(s1, 2)
      case None => None
      case Some((flags, s2)) =>
        if !KnownCapabilities(flags) then None else
        match TakeText(rules, s2)
        case None => None
        case Some((serverId, s3)) =>
          match TakeText(rules, s3)
          case None => None
          case Some((instanceId, s4)) =>
            if !rules.identity(serverId) || !rules.identity(instanceId) then None else
            match TakeInt(s4, 2)
            case None => None
            case Some((count, s5)) =>
              match TakeRoutes(rules, s5, count)
              case None => None
              case Some((routes, rest)) =>
                if rest != [] then None else Some(Metadata(prefix, flags, serverId, instanceId, routes))
  }

  // ----- each reader accepts exactly the encodings of what it returns

  lemma TakeIntExact(s: seq<byte>, width: nat, n: nat, rest: seq<byte>)
    ensures TakeInt(s, width) == Some((n, rest)) <==> n < Range(width) && s == LE(n, width) + rest
  {
    if |s| >= width {
      WriteBack(s[..width]);
      assert s == s[..width] + s[width..];
    }
    if n < Range(width) && s == LE(n, width) + rest {
      ReadBack(n, width);
      assert s[..width] == LE(n, width) && s[width..] == rest;
    }
  }

  lemma TakeTextExact(rules: TextRules, s: seq<byte>, t: seq<byte>, rest: seq<byte>)
    ensures TakeText(rules, s) == Some((t, rest)) <==> TextOk(rules, t) && s == EncodeText(t) + rest
  {
    if TakeText(rules, s) == Some((t, rest)) {
      var end: int := 1 + (s[0] as int);
      assert s == [s[0]] + s[1..end] + s[end..];
    }
    if TextOk(rules, t) && s == EncodeText(t) + rest {
      assert s[0] == |t| && s[1..1 + |t|] == t && s[1 + |t|..] == rest;
    }
  }

  lemma {:induction false} TakeTextsSound(rules: TextRules, s: seq<byte>, count: nat)
    requires TakeTexts(rules, s, count).Some?
    ensures var (texts, rest) := TakeTexts(rules, s, count).value;
            && |texts| == count && AllTexts(rules, texts)
            && (forall i :: 0 <= i < |texts| ==> WireText(texts[i]))
            && s == EncodeTexts(texts) + rest
  {
    if count > 0 {
      var (t, rest) := TakeText(rules, s).value;
      TakeTextExact(rules, s, t, rest);
      TakeTextsSound(rules, rest, count - 1);
      var (ts, tail) := TakeTexts(rules, rest, count - 1).value;
      assert ([t] + ts)[1..] == ts;
    }
  }

  lemma {:induction false} TakeTextsComplete(rules: TextRules, texts: seq<seq<byte>>, rest: seq<byte>)
    requires AllTexts(rules, texts) && forall i :: 0 <= i < |texts| ==> WireText(texts[i])
    ensures TakeTexts(rules, EncodeTexts(texts) + rest, |texts|) == Some((texts, rest))
  {
    if texts == [] {
      assert EncodeTexts(texts) + rest == rest;
    } else {
      var t, ts := texts[0], texts[1..];
      assert TextOk(rules, t);
      assert EncodeTexts(texts) + rest == EncodeText(t) + (EncodeTexts(ts) + rest);
      TakeTextExact(rules, EncodeTexts(texts) + rest, t, EncodeTexts(ts) + rest);
      assert AllTexts(rules, ts) by {
        forall i | 0 <= i < |ts| ensures TextOk(rules, ts[i]) { assert TextOk(rules, texts[i + 1]); }
      }
      TakeTextsComplete(rules, ts, rest);
      assert texts == [t] + ts;
    }
  }

  lemma TakeMethodExact(rules: TextRules, s: seq<byte>, m: MethodEntry, rest: seq<byte>)
    ensures TakeMethod(rules, s) == Some((m, rest)) <==>
            MethodOk(rules, m) && s == EncodeText(m.name) + (LE(m.index, 2) + rest)
  {
    Ranges();
    if TakeMethod(rules, s) == Some((m, rest)) {
      var (name, middle) := TakeText(rules, s).value;
      TakeTextExact(rules, s, name, middle);
      TakeIntExact(middle, 2, m.index, rest);
    }
    if MethodOk(rules, m) && s == EncodeText(m.name) + (LE(m.index, 2) + rest) {
      TakeTextExact(rules, s, m.name, LE(m.index, 2) + rest);
      TakeIntExact(LE(m.index, 2) + rest, 2, m.index, rest);
    }
  }

  lemma {:induction false} TakeMethodsSound(rules: TextRules, s: seq<byte>, count: nat)
    requires TakeMethods(rules, s, count).Some?
    ensures var (methods, rest) := TakeMethods(rules, s, count).value;
            && |methods| == count && AllMethods(rules, methods)
            && s == EncodeMethods(rules, methods) + rest
  {
    if count > 0 {
      var (m, rest) := TakeMethod(rules, s).value;
      TakeMethodExact(rules, s, m, rest);
      TakeMethodsSound(rules, rest, count - 1);
      var (ms, tail) := TakeMethods(rules, rest, count - 1).value;
      assert ([m] + ms)[1..] == ms;
    }
  }

  lemma {:induction false} TakeMethodsComplete(rules: TextRules, methods: seq<MethodEntry>, rest: seq<byte>)
    requires AllMethods(rules, methods)
    ensures TakeMethods(rules, EncodeMethods(rules, methods) + rest, |methods|) == Some((methods, rest))
  {
    if methods == [] {
      assert EncodeMethods(rules, methods) + rest == rest;
    } else {
      var m, ms := methods[0], methods[1..];
      assert MethodOk(rules, m);
      assert AllMethods(rules, ms) by {
        forall i | 0 <= i < |ms| ensures MethodOk(rules, ms[i]) { assert MethodOk(rules, methods[i + 1]); }
      }
      var tail := EncodeMethods(rules, ms) + rest;
      var whole := EncodeMethods(rules, methods) + rest;
      assert whole == EncodeText(m.name) + (LE(m.index, 2) + tail);
      TakeMethodExact(rules, whole, m, tail);
      TakeMethodsComplete(rules, ms, rest);
      assert methods == [m] + ms;
    }
  }

  lemma TakeRouteSound(rules: TextRules, s: seq<byte>)
    requires TakeRoute(rules, s).Some?
    ensures var (r, rest) := TakeRoute(rules, s).value;
            RouteOk(rules, r) && s == EncodeRoute(rules, r) + rest
  {
    Ranges();
    var (r, rest) := TakeRoute(rules, s).value;
    var (texts, s1) := TakeTexts(rules, s, 7).value;
    var (size, s2) := TakeInt(s1, 8).value;
    var (count, s3) := TakeInt(s2, 2).value;
    TakeTextsSound(rules, s, 7);
    TakeIntExact(s1, 8, size, s2);
    TakeIntExact(s2, 2, count, s3);
    TakeMethodsSound(rules, s3, count);
    Regroup(EncodeTexts(texts), LE(size, 8), LE(count, 2), EncodeMethods(rules, r.methods), rest);
  }

  lemma Regroup(a: seq<byte>, b: seq<byte>, c: seq<byte>, d: seq<byte>, rest: seq<byte>)
    ensures a + (b + (c + (d + rest))) == (a + (b + (c + d))) + rest
  {}

  lemma Reassociate(a: seq<byte>, b: seq<byte>, rest: seq<byte>)
    ensures a + (b + rest) == (a + b) + rest
  {}

  lemma TakeRouteComplete(rules: TextRules, r: RouteEntry, rest: seq<byte>)
    requires RouteOk(rules, r)
    ensures TakeRoute(rules, EncodeRoute(rules, r) + rest) == Some((r, rest))
  {
    Ranges();
    TextsAreWireTexts(rules, r.texts);
    var methods := EncodeMethods(rules, r.methods) + rest;
    var counted := LE(|r.methods|, 2) + methods;
    var sized := LE(r.maxPayloadSize, 8) + counted;
    assert EncodeRoute(rules, r) + rest == EncodeTexts(r.texts) + sized;
    TakeTextsComplete(rules, r.texts, sized);
    TakeIntExact(sized, 8, r.maxPayloadSize, counted);
    TakeIntExact(counted, 2, |r.methods|, methods);
    TakeMethodsComplete(rules, r.methods, rest);
  }

  lemma {:induction false} TakeRoutesSound(rules: TextRules, s: seq<byte>, count: nat)
    requires TakeRoutes(rules, s, count).Some?
    ensures var (routes, rest) := TakeRoutes(rules, s, count).value;
            && |routes| == count && AllRoutes(rules, routes)
            && s == EncodeRoutes(rules, routes) + rest
    decreases count
  {
    if count > 0 {
      var (r, rest) := TakeRoute(rules, s).value;
      TakeRouteSound(rules, s);
      TakeRoutesSound(rules, rest, count - 1);
      var (rs, tail) := TakeRoutes(rules, rest, count - 1).value;
      assert ([r] + rs)[1..] == rs;
      Reassociate(EncodeRoute(rules, r), EncodeRoutes(rules, rs), tail);
    }
  }

  lemma {:induction false} TakeRoutesComplete(rules: TextRules, routes: seq<RouteEntry>, rest: seq<byte>)
    requires AllRoutes(rules, routes)
    ensures TakeRoutes(rules, EncodeRoutes(rules, routes) + rest, |routes|) == Some((routes, rest))
  {
    if routes == [] {
      assert EncodeRoutes(rules, routes) + rest == rest;
    } else {
      var r, rs := routes[0], routes[1..];
      assert RouteOk(rules, r);
      assert AllRoutes(rules, rs) by {
        forall i | 0 <= i < |rs| ensures RouteOk(rules, rs[i]) { assert RouteOk(rules, routes[i + 1]); }
      }
      var tail := EncodeRoutes(rules, rs) + rest;
      assert EncodeRoutes(rules, routes) + rest == EncodeRoute(rules, r) + tail;
      TakeRouteComplete(rules, r, tail);
      TakeRoutesComplete(rules, rs, rest);
      assert routes == [r] + rs;
    }
  }

  /** Accepted metadata is well formed, and its encoding is the whole payload: no trailing bytes. */
  lemma ParseSound(rules: TextRules, s: seq<byte>)
    requires ParseMetadata(rules, s).Some?
    ensures var m := ParseMetadata(rules, s).value;
            MetadataOk(rules, m) && s == EncodeMetadata(rules, m)
  {
    Ranges();
    var m := ParseMetadata(rules, s).value;
    var s1 := TakeText(rules, s).value.1;
    var s2 := TakeInt(s1, 2).value.1;
    var s3 := TakeText(rules, s2).value.1;
    var s4 := TakeText(rules, s3).value.1;
    var (count, s5) := TakeInt(s4, 2).value;
    TakeTextExact(rules, s, m.shmPrefix, s1);
    TakeIntExact(s1, 2, m.capabilityFlags, s2);
    TakeTextExact(rules, s2, m.serverId, s3);
    TakeTextExact(rules, s3, m.serverInstanceId, s4);
    TakeIntExact(s4, 2, count, s5);
    TakeRoutesSound(rules, s5, count);
    assert s5 == EncodeRoutes(rules, m.routes);
  }

  /** Every encoding of well-formed metadata is accepted and read back. */
  lemma ParseComplete(rules: TextRules, m: Metadata)
    requires MetadataOk(rules, m)
    ensures ParseMetadata(rules, EncodeMetadata(rules, m)) == Some(m)
  {
    Ranges();
    var s5 := EncodeRoutes(rules, m.routes);
    var s4 := LE(|m.routes|, 2) + s5;
    var s3 := EncodeText(m.serverInstanceId) + s4;
    var s2 := EncodeText(m.serverId) + s3;
    var s1 := LE(m.capabilityFlags, 2) + s2;
    TakeTextExact(rules, EncodeText(m.shmPrefix) + s1, m.shmPrefix, s1);
    TakeIntExact(s1, 2, m.capabilityFlags, s2);
    TakeTextExact(rules, s2, m.serverId, s3);
    TakeTextExact(rules, s3, m.serverInstanceId, s4);
    TakeIntExact(s4, 2, |m.routes|, s5);
    TakeRoutesComplete(rules, m.routes, []);
    assert s5 + [] == s5;
  }

  /** A payload is accepted exactly when it encodes well-formed metadata, and metadata is read unambiguously. */
  lemma ParseExact(rules: TextRules, s: seq<byte>)
    ensures var r := ParseMetadata(rules, s);
            && (r.Some? ==> MetadataOk(rules, r.value) && s == EncodeMetadata(rules, r.value))
            && (r.None? ==> forall m :: MetadataOk(rules, m) ==> EncodeMetadata(rules, m) != s)
  {
    if ParseMetadata(rules, s).Some? { ParseSound(rules, s); }
    forall m | MetadataOk(rules, m) ensures EncodeMetadata(rules, m) == s ==> ParseMetadata(rules, s) == Some(m) {
      ParseComplete(rules, m);
    }
  }

  // ----- the decoder

  /** What is left of a repetition once `done` items have been read. */
  ghost function Resume<T>(done: seq<T>, rest: Option<(seq<T>, seq<byte>)>): Option<(seq<T>, seq<byte>)> {
    match rest
    case None => None
    case Some((items, tail)) => Some((done + items, tail))
  }

  lemma ResumeNothing<T>(rest: Option<(seq<T>, seq<byte>)>)
    ensures Resume([], rest) == rest
  {
    if rest.Some? { assert [] + rest.value.0 == rest.value.0; }
  }

  lemma ResumeStep<T>(done: seq<T>, item: T, rest: Option<(seq<T>, seq<byte>)>)
    ensures Resume(done, Resume([item], rest)) == Resume(done + [item], rest)
  {
    if rest.Some? { assert done + ([item] + rest.value.0) == done + [item] + rest.value.0; }
  }

  method DecodeText(rules: TextRules, payload: seq<byte>, offset: nat) returns (r: Option<(seq<byte>, nat)>)
    requires offset <= |payload|
    ensures r.Some? ==> offset < r.value.1 <= |payload|
    ensures TakeText(rules, payload[offset..]) == if r.Some? then Some((r.value.0, payload[r.value.1..])) else None
  {
    if offset + 1 > |payload| { return None; }
    var length := payload[offset] as int;
    assert payload[offset..][0] == length;
    if offset + 1 + length > |payload| { return None; }
    var text := payload[offset + 1..offset + 1 + length];
    assert payload[offset..][1..1 + length] == text;
    if !rules.utf8(text) { return None; }
    assert payload[offset..][1 + length..] == payload[offset + 1 + length..];
    return Some((text, offset + 1 + length));
  }

  method DecodeInt(payload: seq<byte>, offset: nat, width: nat) returns (r: Option<(nat, nat)>)
    requires offset <= |payload|
    ensures r.Some? ==> offset <= r.value.1 <= |payload|
    ensures TakeInt(payload[offset..], width) == if r.Some? then Some((r.value.0, payload[r.value.1..])) else None
  {
    if offset + width > |payload| { return None; }
    assert payload[offset..][..width] == payload[offset..offset + width];
    assert payload[offset..][width..] == payload[offset + width..];
    return Some((FromLE(payload[offset..offset + width]), offset + width));
  }

  /** Reads one route: seven texts, the size limit, then as many methods as it announces. */
  method DecodeRoute(rules: TextRules, payload: seq<byte>, start: nat) returns (r: Option<(RouteEntry, nat)>)
    requires start <= |payload|
    ensures r.Some? ==> start <= r.value.1 <= |payload|
    ensures TakeRoute(rules, payload[start..]) == if r.Some? then Some((r.value.0, payload[r.value.1..])) else None
  {
    var offset, texts := start, [];
    ResumeNothing(TakeTexts(rules, payload[start..], 7));
    for i := 0 to 7
      invariant start <= offset <= |payload| && |texts| == i
      invariant TakeTexts(rules, payload[start..], 7) == Resume(texts, TakeTexts(rules, payload[offset..], 7 - i))
    {
      var t := DecodeText(rules, payload, offset);
      if t.None? { return None; }
      ResumeStep(texts, t.value.0, TakeTexts(rules, payload[t.value.1..], 6 - i));
      texts, offset := texts + [t.value.0], t.value.1;
    }
    assert texts + [] == texts;
    var size := DecodeInt(payload, offset, 8);
    if size.None? || size.value.0 > MAX_SAFE_INTEGER { return None; }
    var count := DecodeInt(payload, size.value.1, 2);
    if count.None? { return None; }
    if !RouteTextsOk(rules, texts) || size.value.0 <= 0 { return None; }
    var methods := DecodeMethods(rules, payload, count.value.1, count.value.0);
    if methods.None? { return None; }
    return Some((RouteEntry(texts, size.value.0, methods.value.0), methods.value.1));
  }

  method DecodeMethod(rules: TextRules, payload: seq<byte>, offset: nat) returns (r: Option<(MethodEntry, nat)>)
    requires offset <= |payload|
    ensures r.Some? ==> offset <= r.value.1 <= |payload|
    ensures TakeMethod(rules, payload[offset..]) == if r.Some? then Some((r.value.0, payload[r.value.1..])) else None
  {
    var name := DecodeText(rules, payload, offset);
    if name.None? { return None; }
    var index := DecodeInt(payload, name.value.1, 2);
    if index.None? || !rules.methodName(name.value.0) { return None; }
    return Some((MethodEntry(name.value.0, index.value.0), index.value.1));
  }

  method DecodeMethods(rules: TextRules, payload: seq<byte>, start: nat, count: nat)
    returns (r: Option<(seq<MethodEntry>, nat)>)
    requires start <= |payload|
    ensures r.Some? ==> start <= r.value.1 <= |payload|
    ensures TakeMethods(rules, payload[start..], count) == if r.Some? then Some((r.value.0, payload[r.value.1..])) else None
  {
    var offset, methods := start, [];
    ResumeNothing(TakeMethods(rules, payload[start..], count));
    for i := 0 to count
      invariant start <= offset <= |payload|
      invariant TakeMethods(rules, payload[start..], count)
             == Resume(methods, TakeMethods(rules, payload[offset..], count - i))
    {
      var m := DecodeMethod(rules, payload, offset);
      if m.None? { return None; }
      ResumeStep(methods, m.value.0, TakeMethods(rules, payload[m.value.1..], count - i - 1));
      methods, offset := methods + [m.value.0], m.value.1;
    }
    assert methods + [] == methods;
    return Some((methods, offset));
  }

  /**
   * Decodes server metadata. It accepts a payload exactly when the payload is the encoding of
   * well-formed metadata, and then returns that metadata; every read stays inside the payload.
   */
  method DecodeServerHandshake(rules: TextRules, payload: seq<byte>) returns (r: Option<Metadata>)
    ensures r == ParseMetadata(rules, payload)
    ensures r.Some? ==> MetadataOk(rules, r.value) && payload == EncodeMetadata(rules, r.value)
    ensures r.None? ==> forall m :: MetadataOk(rules, m) ==> EncodeMetadata(rules, m) != payload
  {
    ParseExact(rules, payload);
    assert payload[0..] == payload;
    var prefix := DecodeText(rules, payload, 0);
    if prefix.None? { return None; }
    var flags := DecodeInt(payload, prefix.value.1, 2);
    if flags.None? || !KnownCapabilities(flags.value.0) { return None; }
    var serverId := DecodeText(rules, payload, flags.value.1);
    if serverId.None? { return None; }
    var instanceId := DecodeText(rules, payload, serverId.value.1);
    if instanceId.None? { return None; }
    if !rules.identity(serverId.value.0) || !rules.identity(instanceId.value.0) { return None; }
    var count := DecodeInt(payload, instanceId.value.1, 2);
    if count.None? { return None; }
    var routes := DecodeRoutes(rules, payload, count.value.1, count.value.0);
    if routes.None? { return None; }
    assert |payload[routes.value.1..]| == |payload| - routes.value.1;
    if routes.value.1 != |payload| { return None; }
    return Some(Metadata(prefix.value.0, flags.value.0, serverId.value.0, instanceId.value.0, routes.value.0));
  }

  method DecodeRoutes(rules: TextRules, payload: seq<byte>, start: nat, count: nat)
    returns (r: Option<(seq<RouteEntry>, nat)>)
    requires start <= |payload|
    ensures r.Some? ==> start <= r.value.1 <= |payload|
    ensures TakeRoutes(rules, payload[start..], count) == if r.Some? then Some((r.value.0, payload[r.value.1..])) else None
  {
    var offset, routes := start, [];
    ResumeNothing(TakeRoutes(rules, payload[start..], count));
    for i := 0 to count
      invariant start <= offset <= |payload|
      invariant TakeRoutes(rules, payload[start..], count)
             == Resume(routes, TakeRoutes(rules, payload[offset..], count - i))
    {
      var route := DecodeRoute(rules, payload, offset);
      if route.None? { return None; }
      ResumeStep(routes, route.value.0, TakeRoutes(rules, payload[route.value.1..], count - i - 1));
      routes, offset := routes + [route.value.0], route.value.1;
    }
    assert routes + [] == routes;
    return Some((routes, offset));
  }
}

/** Protocol versions and the two generations of the protocol: mcp.go. */
module Era {
  import opened Common
  import opened Text
  import opened Rpc

  const V20250618 := "2025-06-18"
  const V20251125 := "2025-11-25"
  const V20260728 := "2026-07-28"
  const FIRST_MODERN_VERSION := V20260728
  const LATEST_LEGACY_VERSION := V20251125

  const SUPPORTED_PROTOCOL_VERSIONS: seq<string> := [V20260728, V20251125, V20250618]

  datatype ProtocolEra = Legacy | Modern

  /** v >= firstModernVersion in Go's byte order. */
  predicate IsModernVersion(v: string) {
    !Less(v, FIRST_MODERN_VERSION)
  }

  predicate IsSupportedVersion(v: string) {
    v in SUPPORTED_PROTOCOL_VERSIONS
  }

  function NegotiateLegacyVersion(clientVersion: string): string {
    if IsSupportedVersion(clientVersion) && !IsModernVersion(clientVersion) then clientVersion
    else LATEST_LEGACY_VERSION
  }

  predicate Serves(era: ProtocolEra, m: Method) {
    match era
    case Legacy => m.Initialize? || m.Initialized? || m.ToolsList? || m.ToolsCall?
    case Modern => m.Discover? || m.ToolsList? || m.ToolsCall?
  }

  function ErrorStatus(era: ProtocolEra, code: int): int {
    match era
    case Legacy => 200
    case Modern =>
      if code == UNSUPPORTED_PROTOCOL_VERSION || code == HEADER_MISMATCH || code == INVALID_PARAMS then 400
      else if code == METHOD_NOT_FOUND then 404
      else 200
  }

  /** The era a request selects, the version that selected it, and whether that
      version may be served. */
  datatype Resolution = Resolution(era: ProtocolEra, version: string, served: bool)

  function ResolveEra(m: Method, declared: string, mirrored: string): Resolution {
    if m.Initialize? || m.Initialized? then Resolution(Legacy, "", true)
    else
      var requested := if IsModernVersion(declared) then declared else mirrored;
      if IsModernVersion(requested) then Resolution(Modern, requested, IsSupportedVersion(requested))
      else Resolution(Legacy, "", true)
  }

  // ---------------------------------------------------------------- versions

  /** A full-date, YYYY-MM-DD (section 5.6 of RFC 3339), by its fields. */
  datatype FullDate = FullDate(year: string, month: string, day: string) {
    predicate Valid() {
      |year| == 4 && |month| == 2 && |day| == 2 && AllDigits(year) && AllDigits(month) && AllDigits(day)
    }

    function Render(): string {
      year + ("-" + (month + ("-" + day)))
    }
  }

  predicate Earlier(a: FullDate, b: FullDate)
    requires a.Valid() && b.Valid()
  {
    var y, y' := DigitsValue(a.year), DigitsValue(b.year);
    var m, m' := DigitsValue(a.month), DigitsValue(b.month);
    y < y' || (y == y' && (m < m' || (m == m' && DigitsValue(a.day) < DigitsValue(b.day))))
  }

  lemma {:induction false} DigitsCompare(a: string, b: string)
    requires |a| == |b| && AllDigits(a) && AllDigits(b)
    ensures Less(a, b) <==> DigitsValue(a) < DigitsValue(b)
    ensures a == b <==> DigitsValue(a) == DigitsValue(b)
  {
    if a != "" {
      var k := |a| - 1;
      DigitsCompare(a[..k], b[..k]);
      assert a == a[..k] + [a[k]] && b == b[..k] + [b[k]];
      LessByField(a[..k], b[..k], [a[k]], [b[k]]);
      assert a[k] in a && b[k] in b;
      assert Less([a[k]], [b[k]]) <==> a[k] < b[k];
    }
  }

  lemma RenderedFields(d: FullDate)
    requires d.Valid()
    ensures |d.Render()| == 10
    ensures d.Render()[..4] == d.year && d.Render()[5..7] == d.month && d.Render()[8..] == d.day
  {
    var tail := d.month + ("-" + d.day);
    assert d.Render()[5..] == tail;
    assert d.Render()[5..7] == tail[..2];
    assert d.Render()[8..] == tail[3..];
  }

  /** Byte order, which `IsModernVersion` uses, is calendar order on all dates. */
  lemma ByteOrderIsCalendarOrder(a: FullDate, b: FullDate)
    requires a.Valid() && b.Valid()
    ensures Less(a.Render(), b.Render()) <==> Earlier(a, b)
    ensures a.Render() == b.Render() <==> a == b
  {
    DigitsCompare(a.year, b.year);
    DigitsCompare(a.month, b.month);
    DigitsCompare(a.day, b.day);
    var day, day' := "-" + a.day, "-" + b.day;
    var rest, rest' := "-" + (a.month + day), "-" + (b.month + day');
    LessByField(a.year, b.year, rest, rest');
    LessByField("-", "-", a.month + day, b.month + day');
    LessByField(a.month, b.month, day, day');
    LessByField("-", "-", a.day, b.day);
    LessIsStrict("-", "-");
    RenderedFields(a);
    RenderedFields(b);
  }

  /** So a dated version is modern exactly from 28 July 2026 on. */
  lemma ModernFromCutover(v: FullDate)
    requires v.Valid()
    ensures IsModernVersion(v.Render()) <==> !Earlier(v, FullDate("2026", "07", "28"))
  {
    ByteOrderIsCalendarOrder(v, FullDate("2026", "07", "28"));
    assert FullDate("2026", "07", "28").Render() == FIRST_MODERN_VERSION;
  }

  lemma SupportedEras()
    ensures IsModernVersion(V20260728) && !IsModernVersion(V20251125) && !IsModernVersion(V20250618)
    ensures !IsModernVersion("")
    ensures forall v :: IsSupportedVersion(v) && IsModernVersion(v) <==> v == V20260728
  {
    LegacyBeforeCutover();
    LessIsStrict(V20260728, V20260728);
    assert Less("", V20260728);
  }

  lemma LegacyBeforeCutover()
    ensures Less(V20251125, V20260728) && Less(V20250618, V20260728)
  {
    assert V20251125 == "202" + "5-11-25" && V20250618 == "202" + "5-06-18" && V20260728 == "202" + "6-07-28";
    LessByField("202", "202", "5-11-25", "6-07-28");
    LessByField("202", "202", "5-06-18", "6-07-28");
    LessIsStrict("202", "202");
  }

  /** The handshake never yields a modern version, and honours every supported
      legacy one. */
  lemma HandshakeStaysLegacy(clientVersion: string)
    ensures var v := NegotiateLegacyVersion(clientVersion);
      && IsSupportedVersion(v)
      && !IsModernVersion(v)
      && v in [V20250618, V20251125]
      && (v == clientVersion <==> clientVersion in [V20250618, V20251125])
  {
    SupportedEras();
  }

  /** Which era a request lands in, from its two sources: modern exactly when it
      is not a handshake message and the body or the header asks for a modern
      version; and of the modern versions only 2026-07-28 is served, with the
      body's version taking precedence over the header's. */
  lemma EraSelection(m: Method, declared: string, mirrored: string)
    ensures var r := ResolveEra(m, declared, mirrored);
      && (r.era == Modern <==> !m.Initialize? && !m.Initialized?
                               && (IsModernVersion(declared) || IsModernVersion(mirrored)))
      && (r.era == Legacy ==> r.served && r.version == "")
      && (r.era == Modern ==> (r.served <==> r.version == V20260728))
      && (r.era == Modern && IsModernVersion(declared) ==> r.version == declared)
      && (r.era == Modern && !IsModernVersion(declared) ==> r.version == mirrored)
  {
    SupportedEras();
  }

  /** Which methods each era serves. */
  lemma ServedMethods(methodName: string)
    ensures Serves(Legacy, MethodOf(methodName)) <==>
      methodName in ["initialize", "notifications/initialized", "tools/list", "tools/call"]
    ensures Serves(Modern, MethodOf(methodName)) <==>
      methodName in ["server/discover", "tools/list", "tools/call"]
  {
    MethodsDiffer(methodName);
  }

  /** The HTTP status of each error code. */
  lemma ErrorStatuses(code: int)
    ensures ErrorStatus(Legacy, code) == 200
    ensures ErrorStatus(Modern, code) == 400 <==> code in {-32022, -32020, -32602}
    ensures ErrorStatus(Modern, code) == 404 <==> code == -32601
    ensures ErrorStatus(Modern, code) in {200, 400, 404}
  {
  }

  /** The versions, newest first, and what the handshake falls back to. */
  lemma Versions(clientVersion: string)
    ensures SUPPORTED_PROTOCOL_VERSIONS == ["2026-07-28", "2025-11-25", "2025-06-18"]
    ensures NegotiateLegacyVersion(clientVersion) ==
      if clientVersion in ["2025-06-18", "2025-11-25"] then clientVersion else "2025-11-25"
  {
    SupportedEras();
    HandshakeStaysLegacy(clientVersion);
  }

  /** A request is modern if and only if it is not part of the handshake and its
      body or its header has a version from 2026-07-28 on in byte order. */
  lemma EraOfRequest(methodName: string, declared: string, mirrored: string)
    ensures var r := ResolveEra(MethodOf(methodName), declared, mirrored);
      && (r.era == Modern <==>
            && methodName != "initialize" && methodName != "notifications/initialized"
            && (!Less(declared, "2026-07-28") || !Less(mirrored, "2026-07-28")))
      && (r.era == Modern ==> r.version == if Less(declared, "2026-07-28") then mirrored else declared)
      && (r.served <==> r.era == Legacy || r.version == "2026-07-28")
  {
    MethodsDiffer(methodName);
    EraSelection(MethodOf(methodName), declared, mirrored);
  }
}

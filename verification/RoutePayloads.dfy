/**
 Route parameters of the web client (routePayloads.ts): JSON text in UTF-8 in
 unpadded base64url, behind an informative slug for entries and categories.
 */
module RoutePayloads {
  import opened Wrappers
  import opened TextUtils
  import opened Json
  import opened Utf8
  import opened Base64
  import opened Descriptors

  // --- Tokens --------------------------------------------------------------

  function Binary(bytes: seq<Byte>): (s: string)
    ensures IsBinary(s) && |s| == |bytes|
  {
    seq(|bytes|, i requires 0 <= i < |bytes| => bytes[i] as char)
  }

  function BytesOf(binary: string): (bytes: seq<Byte>)
    requires IsBinary(binary)
  {
    seq(|binary|, i requires 0 <= i < |binary| => binary[i] as nat)
  }

  function EncodeText(text: string): string {
    ToUrl(Btoa(Binary(Encode(text))))
  }

  predicate IsToken(s: string) {
    s != [] && forall i | 0 <= i < |s| :: IsTokenChar(s[i])
  }

  /** The text behind a token, or None where the platform would throw or the pattern fails. */
  function DecodeToken(token: string): Option<string> {
    var normalized := Trim(token);
    if !IsToken(normalized) then None else
      var binary := Atob(FromUrl(normalized));
      if binary.None? then None else Some(DecodeText(BytesOf(binary.value)))
  }

  function EncodeRoutePayload(payload: Value): string {
    EncodeText(Print(payload))
  }

  function DecodeRoutePayload(token: string): Option<Value> {
    var text := DecodeToken(token);
    if text.None? then None else Parse(text.value)
  }

  /** The encoder as the program runs it: the binary string grows byte by byte. */
  method EncodePayload(payload: Value) returns (token: string)
    ensures token == EncodeRoutePayload(payload)
  {
    hide Encode, Print, Btoa, ToUrl;
    var bytes := Encode(Print(payload));
    var binary := "";
    for n := 0 to |bytes|
      invariant binary == Binary(bytes)[..n]
    {
      binary := binary + [bytes[n] as char];
    }
    assert binary == Binary(bytes);
    token := ToUrl(Btoa(binary));
  }

  lemma TokenCharIsNotSpace(c: char)
    requires IsTokenChar(c)
    ensures !IsSpace(c)
  {
  }

  lemma TokenTrims(s: string)
    requires IsToken(s)
    ensures Trim(s) == s
  {
    TokenCharIsNotSpace(s[0]);
    TokenCharIsNotSpace(s[|s| - 1]);
    TrimFixed(s);
  }

  lemma EncodedIsToken(text: string)
    requires text != []
    ensures IsToken(EncodeText(text)) && Trim(EncodeText(text)) == EncodeText(text)
  {
    var binary := Binary(Encode(text));
    TokenIsUrlLetters(binary);
    assert |binary| >= 1 && |UrlLetters(binary)| == (4 * |binary| + 2) / 3;
    assert EncodeText(text) == UrlLetters(binary);
    TokenTrims(EncodeText(text));
  }

  /** Any text that does not start with a byte order mark survives a token. */
  lemma TokenRoundTrip(text: string)
    requires text != [] && text[0] != BYTE_ORDER_MARK
    ensures DecodeToken(EncodeText(text)) == Some(text)
  {
    EncodedIsToken(text);
    TokenDecodes(Binary(Encode(text)));
    assert BytesOf(Binary(Encode(text))) == Encode(text);
    DecodeInvertsEncode(text);
  }

  /** Every JSON value without kept number text survives a token. */
  lemma PayloadRoundTrip(payload: Value)
    requires Plain(payload)
    ensures DecodeRoutePayload(EncodeRoutePayload(payload)) == Some(payload)
  {
    PrintStarts(payload);
    PrintIsNotMarked(payload);
    TokenRoundTrip(Print(payload));
    ParseInvertsPrint(payload);
  }

  lemma PrintIsNotMarked(payload: Value)
    requires Plain(payload)
    ensures Print(payload) != [] && Print(payload)[0] != BYTE_ORDER_MARK
  {
  }

  // --- Reading decoded objects ---------------------------------------------

  /** The property of a parsed object: the last member with the name. */
  function Lookup(fields: seq<Field>, name: string): Option<Value> {
    if fields == [] then None
    else if fields[|fields| - 1].name == name then Some(fields[|fields| - 1].value)
    else Lookup(fields[..|fields| - 1], name)
  }

  function ReadNonEmptyString(value: Option<Value>): Option<string> {
    if value.Some? && value.value.Str? && Trim(value.value.s) != "" then Some(Trim(value.value.s)) else None
  }

  /** What reading makes of a string that was stored. */
  function Normalized(s: string): Option<string> {
    if Trim(s) == "" then None else Some(Trim(s))
  }

  // --- Slugs ---------------------------------------------------------------

  /** Case and diacritics folding of the platform, which stays abstract. */
  type Fold = string -> string

  function SlugChar(c: char): char {
    if '0' <= c <= '9' || 'a' <= c <= 'z' then c else '_'
  }

  function StripUnderscores(s: string): string {
    if s != [] && s[|s| - 1] == '_' then StripUnderscores(s[..|s| - 1]) else s
  }

  function BuildUrlSlug(fold: Fold, text: string): string {
    var folded := fold(text);
    StripUnderscores(seq(|folded|, i requires 0 <= i < |folded| => SlugChar(folded[i])))
  }

  predicate DashFree(s: string) {
    forall i | 0 <= i < |s| :: s[i] != '-'
  }

  lemma {:induction false} StrippedIsPrefix(s: string)
    ensures StripUnderscores(s) <= s
  {
    if s != [] && s[|s| - 1] == '_' {
      StrippedIsPrefix(s[..|s| - 1]);
    }
  }

  lemma SlugIsDashFree(fold: Fold, text: string)
    ensures DashFree(BuildUrlSlug(fold, text))
  {
    var folded := fold(text);
    StrippedIsPrefix(seq(|folded|, i requires 0 <= i < |folded| => SlugChar(folded[i])));
  }

  function SlugOr(fold: Fold, text: string, default: string): string {
    if BuildUrlSlug(fold, text) == "" then default else BuildUrlSlug(fold, text)
  }

  /** Position of the first dash, or the length. */
  function FirstDash(s: string): (i: nat)
    ensures i <= |s| && (forall k | 0 <= k < i :: s[k] != '-') && (i < |s| ==> s[i] == '-')
  {
    if s == [] || s[0] == '-' then 0 else
      var i := FirstDash(s[1..]);
      assert forall k | 0 < k <= i :: s[k] == s[1..][k - 1];
      i + 1
  }

  lemma DashAfterSlug(slug: string, token: string)
    requires DashFree(slug)
    ensures FirstDash(slug + "-" + token) == |slug|
    ensures (slug + "-" + token)[|slug| + 1..] == token
  {
    var s := slug + "-" + token;
    assert s[|slug|] == '-';
    assert forall k | 0 <= k < |slug| :: s[k] == slug[k];
  }

  // --- Entries -------------------------------------------------------------

  datatype Entry = Entry(source: string, entryUrl: string)

  function EntryValue(e: Entry): Value {
    Obj([Field("source", Str(e.source)), Field("entryUrl", Str(e.entryUrl))])
  }

  function EncodeEntryRoutePayload(e: Entry): string {
    EncodeRoutePayload(EntryValue(e))
  }

  function EncodeEntryRouteParam(fold: Fold, title: Option<string>, e: Entry): string {
    SlugOr(fold, title.GetOr(""), "entry") + "-" + EncodeEntryRoutePayload(e)
  }

  function ReadEntry(payload: Option<Value>): Option<Entry> {
    if payload.None? || !payload.value.Obj? then None else
      var source := ReadNonEmptyString(Lookup(payload.value.fields, "source"));
      var entryUrl := ReadNonEmptyString(Lookup(payload.value.fields, "entryUrl"));
      if source.None? || entryUrl.None? then None else Some(Entry(source.value, entryUrl.value))
  }

  function DecodeEntryRoutePayload(token: string): Option<Entry> {
    var dash := FirstDash(token);
    ReadEntry(DecodeRoutePayload(if dash < |token| then token[dash + 1..] else token))
  }

  /** What any stored entry reads back as: its trimmed parts, when both are non-empty. */
  function NormalizedEntry(e: Entry): Option<Entry> {
    if Trim(e.source) == "" || Trim(e.entryUrl) == "" then None
    else Some(Entry(Trim(e.source), Trim(e.entryUrl)))
  }

  lemma LookupEntry(e: Entry)
    ensures Lookup(EntryValue(e).fields, "source") == Some(Str(e.source))
    ensures Lookup(EntryValue(e).fields, "entryUrl") == Some(Str(e.entryUrl))
  {
    var fields := EntryValue(e).fields;
    assert fields[..1] == [Field("source", Str(e.source))];
  }

  lemma EntryReadsBack(e: Entry)
    ensures ReadEntry(DecodeRoutePayload(EncodeEntryRoutePayload(e))) == NormalizedEntry(e)
  {
    hide EncodeRoutePayload, DecodeRoutePayload, Trim;
    PayloadRoundTrip(EntryValue(e));
    hide Plain, Lookup;
    LookupEntry(e);
  }

  /** A bare token without a dash decodes like one behind a slug, for every source and URL. */
  lemma DashFreeTokenDecodes(e: Entry)
    requires DashFree(EncodeEntryRoutePayload(e))
    ensures DecodeEntryRoutePayload(EncodeEntryRoutePayload(e)) == NormalizedEntry(e)
  {
    hide ReadEntry, DecodeRoutePayload, EncodeEntryRoutePayload, NormalizedEntry;
    assert FirstDash(EncodeEntryRoutePayload(e)) == |EncodeEntryRoutePayload(e)|;
    EntryReadsBack(e);
  }

  lemma NormalizedIsSameIff(e: Entry)
    ensures NormalizedEntry(e) == Some(e) <==>
              e.source != "" && e.entryUrl != "" && Trim(e.source) == e.source && Trim(e.entryUrl) == e.entryUrl
  {
    hide Trim;
  }

  lemma DecodeAfterSlug(slug: string, token: string)
    requires DashFree(slug)
    ensures DecodeEntryRoutePayload(slug + "-" + token) == ReadEntry(DecodeRoutePayload(token))
  {
    hide ReadEntry, DecodeRoutePayload, FirstDash;
    DashAfterSlug(slug, token);
  }

  /**
   Whatever the title, an entry parameter decodes to the trimmed source and URL;
   to the very source and URL exactly when they are non-empty and trimmed.
   */
  lemma EntryParamRoundTrip(fold: Fold, title: Option<string>, e: Entry)
    ensures DecodeEntryRoutePayload(EncodeEntryRouteParam(fold, title, e)) == NormalizedEntry(e)
    ensures DecodeEntryRoutePayload(EncodeEntryRouteParam(fold, title, e)) == Some(e) <==>
              e.source != "" && e.entryUrl != "" && Trim(e.source) == e.source && Trim(e.entryUrl) == e.entryUrl
  {
    hide ReadEntry, DecodeRoutePayload, FirstDash, DecodeEntryRoutePayload, EncodeEntryRoutePayload, NormalizedEntry, Trim;
    SlugIsDashFree(fold, title.GetOr(""));
    DecodeAfterSlug(SlugOr(fold, title.GetOr(""), "entry"), EncodeEntryRoutePayload(e));
    EntryReadsBack(e);
    NormalizedIsSameIff(e);
  }

  // --- Lives ---------------------------------------------------------------

  /** An optional presentation property: absent, null, or text. */
  datatype Optional = Absent | Nullish | Text(s: string)

  datatype LiveTarget = LiveTarget(
    source: string, channel: string, title: Optional, imageUrl: Optional, description: Optional, webUrl: Optional)

  datatype LivePayload = LivePayload(
    source: string, channel: string,
    title: Option<string>, imageUrl: Option<string>, description: Option<string>, webUrl: Option<string>)

  /** `JSON.stringify` leaves absent properties out. */
  function OptionalField(name: string, value: Optional): seq<Field> {
    match value
    case Absent => []
    case Nullish => [Field(name, Null)]
    case Text(s) => [Field(name, Str(s))]
  }

  function LiveHead(live: LiveTarget): seq<Field> {
    [Field("v", Num(1)), Field("source", Str(live.source)), Field("channel", Str(live.channel))]
  }

  function LiveTail(live: LiveTarget): seq<Field> {
    OptionalField("title", live.title) + OptionalField("imageUrl", live.imageUrl)
    + OptionalField("description", live.description) + OptionalField("webUrl", live.webUrl)
  }

  function LiveValue(live: LiveTarget): Value {
    Obj(LiveHead(live) + LiveTail(live))
  }

  function EncodeLiveRoutePayload(live: LiveTarget): string {
    EncodeRoutePayload(LiveValue(live))
  }

  function DecodeLiveRoutePayload(token: string): Option<LivePayload> {
    var payload := DecodeRoutePayload(token);
    if payload.None? || !payload.value.Obj? || Lookup(payload.value.fields, "v") != Some(Num(1)) then None else
      var fields := payload.value.fields;
      var source := ReadNonEmptyString(Lookup(fields, "source"));
      var channel := ReadNonEmptyString(Lookup(fields, "channel"));
      if source.None? || channel.None? then None
      else Some(LivePayload(source.value, channel.value,
                            ReadNonEmptyString(Lookup(fields, "title")),
                            ReadNonEmptyString(Lookup(fields, "imageUrl")),
                            ReadNonEmptyString(Lookup(fields, "description")),
                            ReadNonEmptyString(Lookup(fields, "webUrl"))))
  }

  function ReadOptional(value: Optional): Option<string> {
    if value.Text? then Normalized(value.s) else None
  }

  lemma {:induction false} LookupConcat(fs: seq<Field>, gs: seq<Field>, name: string)
    ensures Lookup(fs + gs, name) == if Lookup(gs, name).Some? then Lookup(gs, name) else Lookup(fs, name)
  {
    if gs == [] {
      assert fs + gs == fs;
    } else {
      assert (fs + gs)[..|fs + gs| - 1] == fs + gs[..|gs| - 1];
      LookupConcat(fs, gs[..|gs| - 1], name);
    }
  }

  lemma LookupOptional(name: string, value: Optional, wanted: string)
    ensures Lookup(OptionalField(name, value), wanted).Some? ==> wanted == name
    ensures ReadNonEmptyString(Lookup(OptionalField(name, value), name)) == ReadOptional(value)
  {
    var fields := OptionalField(name, value);
    if fields != [] {
      assert |fields| == 1 && fields[..0] == [];
      assert Lookup(fields[..0], wanted) == None;
    }
  }

  lemma LookupHead(live: LiveTarget, name: string)
    ensures Lookup(LiveHead(live), name) ==
              if name == "channel" then Some(Str(live.channel))
              else if name == "source" then Some(Str(live.source))
              else if name == "v" then Some(Num(1))
              else None
  {
    var v, source, channel := Field("v", Num(1)), Field("source", Str(live.source)), Field("channel", Str(live.channel));
    assert LiveHead(live)[..2] == [v, source] && [v, source][..1] == [v] && [v][..0] == [];
    assert Lookup([v], name) == if name == "v" then Some(Num(1)) else None;
    assert Lookup([v, source], name) == if name == "source" then Some(source.value) else Lookup([v], name);
  }

  lemma LookupTail(live: LiveTarget, name: string)
    ensures var found := Lookup(LiveTail(live), name);
            && (name == "title" ==> ReadNonEmptyString(found) == ReadOptional(live.title))
            && (name == "imageUrl" ==> ReadNonEmptyString(found) == ReadOptional(live.imageUrl))
            && (name == "description" ==> ReadNonEmptyString(found) == ReadOptional(live.description))
            && (name == "webUrl" ==> ReadNonEmptyString(found) == ReadOptional(live.webUrl))
            && (found.Some? ==> name in ["title", "imageUrl", "description", "webUrl"])
  {
    var t, i, d, w := OptionalField("title", live.title), OptionalField("imageUrl", live.imageUrl),
                      OptionalField("description", live.description), OptionalField("webUrl", live.webUrl);
    LookupConcat(t, i, name);
    LookupConcat(t + i, d, name);
    LookupConcat(t + i + d, w, name);
    LookupOptional("title", live.title, name);
    LookupOptional("imageUrl", live.imageUrl, name);
    LookupOptional("description", live.description, name);
    LookupOptional("webUrl", live.webUrl, name);
  }

  lemma LiveLookup(live: LiveTarget, name: string)
    ensures var found := Lookup(LiveValue(live).fields, name);
            && (name == "v" ==> found == Some(Num(1)))
            && (name == "source" ==> found == Some(Str(live.source)))
            && (name == "channel" ==> found == Some(Str(live.channel)))
            && (name == "title" ==> ReadNonEmptyString(found) == ReadOptional(live.title))
            && (name == "imageUrl" ==> ReadNonEmptyString(found) == ReadOptional(live.imageUrl))
            && (name == "description" ==> ReadNonEmptyString(found) == ReadOptional(live.description))
            && (name == "webUrl" ==> ReadNonEmptyString(found) == ReadOptional(live.webUrl))
  {
    LookupConcat(LiveHead(live), LiveTail(live), name);
    LookupHead(live, name);
    LookupTail(live, name);
  }

  /** Live tokens round-trip unconditionally, up to trimming. */
  lemma LiveRoundTrip(live: LiveTarget)
    ensures DecodeLiveRoutePayload(EncodeLiveRoutePayload(live)) ==
              if Trim(live.source) == "" || Trim(live.channel) == "" then None
              else Some(LivePayload(Trim(live.source), Trim(live.channel), ReadOptional(live.title),
                                    ReadOptional(live.imageUrl), ReadOptional(live.description), ReadOptional(live.webUrl)))
  {
    hide EncodeRoutePayload, DecodeRoutePayload, Trim, Plain, Lookup;
    LiveIsPlain(live);
    PayloadRoundTrip(LiveValue(live));
    LiveLookup(live, "v");
    LiveLookup(live, "source");
    LiveLookup(live, "channel");
    LiveLookup(live, "title");
    LiveLookup(live, "imageUrl");
    LiveLookup(live, "description");
    LiveLookup(live, "webUrl");
  }

  lemma LiveIsPlain(live: LiveTarget)
    ensures Plain(LiveValue(live))
  {
    var fields := LiveValue(live).fields;
    forall i | 0 <= i < |fields| ensures Plain(fields[i].value) {
      assert fields[i] in LiveHead(live) || fields[i] in LiveTail(live);
    }
  }

  // --- Categories ----------------------------------------------------------

  datatype CategoryPayload = CategoryPayload(caption: string, sources: seq<map<string, string>>)

  /** The only property name that assignment to a fresh record ignores. */
  const PROTO := "__proto__"

  function SourceFields(source: Source): seq<Field> {
    seq(|source|, i requires 0 <= i < |source| => Field(source[i].name, Str(source[i].value)))
  }

  function SourceValues(sources: seq<Source>): seq<Value> {
    seq(|sources|, i requires 0 <= i < |sources| => Obj(SourceFields(sources[i])))
  }

  function CategoryValue(caption: string, sources: seq<Source>): Value {
    Obj([Field("v", Num(1)), Field("label", Str(caption)), Field("sources", Arr(SourceValues(sources)))])
  }

  function EncodeCategoryRouteParam(fold: Fold, caption: string, sources: seq<Source>): string {
    SlugOr(fold, caption, "category") + "-" + EncodeRoutePayload(CategoryValue(caption, sources))
  }

  /** String properties of a parsed object; a repeated name keeps its last value. */
  function StringProperties(fields: seq<Field>): map<string, string> {
    if fields == [] then map[] else
      var before, f := StringProperties(fields[..|fields| - 1]), fields[|fields| - 1];
      if f.value.Str? then before[f.name := f.value.s] else before - {f.name}
  }

  method ReadHomeCategorySource(value: Value) returns (sources: seq<map<string, string>>)
    ensures sources == ReadSource(value)
  {
    if !value.Obj? {
      return [];
    }
    var source: map<string, string> := map[];
    for n := 0 to |value.fields|
      invariant source == StringProperties(value.fields[..n]) - {PROTO}
    {
      var field := value.fields[n];
      assert value.fields[..n + 1][..n] == value.fields[..n];
      if field.name != PROTO {
        if field.value.Str? {
          source := source[field.name := field.value.s];
        } else {
          source := source - {field.name};
        }
      }
    }
    assert value.fields[..|value.fields|] == value.fields;
    return [source];
  }

  function ReadSource(value: Value): seq<map<string, string>> {
    if value.Obj? then [StringProperties(value.fields) - {PROTO}] else []
  }

  function ReadSources(values: seq<Value>): seq<map<string, string>> {
    if values == [] then [] else ReadSource(values[0]) + ReadSources(values[1..])
  }

  function ReadCategory(payload: Option<Value>): Option<CategoryPayload> {
    if payload.None? || !payload.value.Obj? || Lookup(payload.value.fields, "v") != Some(Num(1)) then None else
      var sources := Lookup(payload.value.fields, "sources");
      if sources.None? || !sources.value.Arr? then None
      else Some(CategoryPayload(ReadNonEmptyString(Lookup(payload.value.fields, "label")).GetOr(""),
                                ReadSources(sources.value.items)))
  }

  function DecodeCategoryRoutePayload(segment: string): Option<CategoryPayload> {
    var dash := FirstDash(segment);
    if dash == |segment| then None else ReadCategory(DecodeRoutePayload(segment[dash + 1..]))
  }

  lemma LookupCategory(caption: string, sources: seq<Source>)
    ensures Lookup(CategoryValue(caption, sources).fields, "v") == Some(Num(1))
    ensures Lookup(CategoryValue(caption, sources).fields, "label") == Some(Str(caption))
    ensures Lookup(CategoryValue(caption, sources).fields, "sources") == Some(Arr(SourceValues(sources)))
  {
    var fields := CategoryValue(caption, sources).fields;
    assert fields[..2] == [Field("v", Num(1)), Field("label", Str(caption))] && fields[..2][..1] == [Field("v", Num(1))];
    assert Lookup(fields[..2][..1], "v") == Some(Num(1));
  }

  lemma {:induction false} PropertiesOfSource(source: Source)
    ensures StringProperties(SourceFields(source)) == ToMap(source)
  {
    if source != [] {
      var n := |source| - 1;
      assert SourceFields(source)[..n] == SourceFields(source[..n]);
      PropertiesOfSource(source[..n]);
    }
  }

  lemma {:induction false} SourcesReadBack(sources: seq<Source>)
    ensures var r := ReadSources(SourceValues(sources));
            |r| == |sources| && forall i | 0 <= i < |sources| :: r[i] == ToMap(sources[i]) - {PROTO}
  {
    if sources != [] {
      PropertiesOfSource(sources[0]);
      SourcesReadBack(sources[1..]);
      assert SourceValues(sources)[1..] == SourceValues(sources[1..]);
    }
  }

  lemma CategoryIsPlain(caption: string, sources: seq<Source>)
    ensures Plain(CategoryValue(caption, sources))
  {
    assert Plain(Arr(SourceValues(sources)));
  }

  function Stored(sources: seq<Source>): seq<map<string, string>> {
    seq(|sources|, i requires 0 <= i < |sources| => ToMap(sources[i]) - {PROTO})
  }

  function SourceMaps(sources: seq<Source>): seq<map<string, string>> {
    seq(|sources|, i requires 0 <= i < |sources| => ToMap(sources[i]))
  }

  lemma CategoryValueReads(caption: string, sources: seq<Source>)
    ensures ReadCategory(Some(CategoryValue(caption, sources))) == Some(CategoryPayload(Trim(caption), Stored(sources)))
  {
    LookupCategory(caption, sources);
    SourcesReadBack(sources);
    assert ReadSources(SourceValues(sources)) == Stored(sources);
  }

  /** A category reads back as its trimmed label and its descriptors without a `__proto__` property. */
  lemma CategoryReadsBack(fold: Fold, caption: string, sources: seq<Source>)
    ensures DecodeCategoryRoutePayload(EncodeCategoryRouteParam(fold, caption, sources)) ==
              Some(CategoryPayload(Trim(caption), Stored(sources)))
  {
    var slug, token := SlugOr(fold, caption, "category"), EncodeRoutePayload(CategoryValue(caption, sources));
    SlugIsDashFree(fold, caption);
    assert DashFree(slug);
    DashAfterSlug(slug, token);
    assert DecodeCategoryRoutePayload(slug + "-" + token) == ReadCategory(DecodeRoutePayload(token));
    CategoryIsPlain(caption, sources);
    PayloadRoundTrip(CategoryValue(caption, sources));
    CategoryValueReads(caption, sources);
  }

  lemma StoredUnchangedIff(sources: seq<Source>)
    ensures Stored(sources) == SourceMaps(sources) <==> forall i | 0 <= i < |sources| :: PROTO !in ToMap(sources[i])
  {
    forall i | 0 <= i < |sources|
      ensures Stored(sources)[i] == SourceMaps(sources)[i] <==> PROTO !in ToMap(sources[i])
    {
      assert PROTO !in ToMap(sources[i]) ==> ToMap(sources[i]) - {PROTO} == ToMap(sources[i]);
    }
  }

  /** The label and the descriptors survive exactly when it is trimmed and none has a `__proto__` property. */
  lemma CategoryRoundTrip(fold: Fold, caption: string, sources: seq<Source>)
    ensures DecodeCategoryRoutePayload(EncodeCategoryRouteParam(fold, caption, sources))
              == Some(CategoryPayload(caption, SourceMaps(sources)))
            <==> Trim(caption) == caption && forall i | 0 <= i < |sources| :: PROTO !in ToMap(sources[i])
  {
    CategoryReadsBack(fold, caption, sources);
    StoredUnchangedIff(sources);
  }
}

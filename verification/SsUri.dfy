/** `ss://` links in both forms, and what survives a trip through one. */
module SsUriLinks {
  import opened Net
  import opened Sequences
  import opened Utf8
  import opened Base64
  import opened Text

  /** What a link says. `cipher` is the source's `method`. */
  datatype SsUri = SsUri(host: string, port: nat, cipher: string, password: string, tag: Option<string>)

  datatype Error =
    | NotAnSsLink
    | NotBase64
    | NotText
    | NoCredentials
    | NoHostPort
    | BadPort
    | EmptyHost
    | ZeroPort
    | Ipv6Host
    | NoServer

  datatype Result<+T> = Ok(value: T) | Err(error: Error) {
    predicate IsFailure() {
      Err?
    }

    function PropagateFailure<U>(): Result<U>
      requires Err?
    {
      Err(error)
    }

    function Extract(): T
      requires Ok?
    {
      value
    }
  }

  /** Either alphabet, URL-safe first, whatever padding is left at the end. */
  function DecodeBase64(s: string): Option<seq<Byte>> {
    var trimmed := StripPadding(s);
    var first := DecodeText(UrlSafe, trimmed);
    if first.Some? then first else DecodeText(Standard, trimmed)
  }

  function DecodeSection(s: string): Result<string> {
    match DecodeBase64(s)
    case None => Err(NotBase64)
    case Some(bytes) =>
      match Decode(bytes)
      case None => Err(NotText)
      case Some(text) => Ok(text)
  }

  function SplitCreds(s: string): Result<(string, string)> {
    match SplitOnce(s, ':')
    case Some((m, p)) => if m != [] && p != [] then Ok((m, p)) else Err(NoCredentials)
    case None => Err(NoCredentials)
  }

  function SplitHostPort(s: string): Result<(string, nat)> {
    match RSplitOnce(s, ':')
    case None => Err(NoHostPort)
    case Some((h, p)) =>
      match ParseU16(p)
      case None => Err(BadPort)
      case Some(port) =>
        if h == [] then Err(EmptyHost)
        else if port == 0 then Err(ZeroPort)
        else if ':' in h || '[' in h then Err(Ipv6Host)
        else Ok((h, port))
  }

  /** The part before the first `#`, and the tag after it, an empty one being none. */
  function SplitFragment(rest: string): (string, Option<string>) {
    match SplitOnce(rest, '#')
    case Some((b, t)) => (b, if t == [] then None else Some(DecodeTag(t)))
    case None => (rest, None)
  }

  function DropQuery(body: string): string {
    match SplitOnce(body, '?')
    case Some((b, _)) => b
    case None => body
  }

  function StripSlash(s: string): string {
    if s != [] && s[|s| - 1] == '/' then s[..|s| - 1] else s
  }

  const SCHEME := "ss://"

  function ParseSsUri(uri: string): Result<SsUri> {
    var trimmed := Trim(uri);
    if !(SCHEME <= trimmed) then Err(NotAnSsLink)
    else
      var (beforeFragment, tag) := SplitFragment(trimmed[|SCHEME|..]);
      ParseBody(DropQuery(beforeFragment), tag)
  }

  function ParseBody(body: string, tag: Option<string>): Result<SsUri> {
    match RSplitOnce(body, '@')
    case Some((creds, hostport)) =>
      var text :- DecodeSection(creds);
      ParseParts(text, StripSlash(hostport), tag)
    case None =>
      var all :- DecodeSection(body);
      match RSplitOnce(all, '@')
      case None => Err(NoServer)
      case Some((creds, hostport)) => ParseParts(creds, hostport, tag)
  }

  function ParseParts(creds: string, hostport: string, tag: Option<string>): Result<SsUri> {
    var (cipher, password) :- SplitCreds(creds);
    var (host, port) :- SplitHostPort(hostport);
    Ok(SsUri(host, port, cipher, password, tag))
  }

  function Fragment(tag: Option<string>): string {
    match tag
    case Some(t) => if t != [] then "#" + EncodeTag(t) else []
    case None => []
  }

  function CredsText(cipher: string, password: string): string {
    cipher + [':'] + password
  }

  /** A host and a port as written. */
  function HostPortText(host: string, port: string): string {
    host + [':'] + port
  }

  function RenderSsUri(cipher: string, password: string, host: string, port: nat, tag: Option<string>): string {
    var creds := EncodeText(UrlSafe, Encode(CredsText(cipher, password)));
    SCHEME + (creds + ['@'] + HostPortText(host, Decimal(port))) + Fragment(tag)
  }

  function Render(u: SsUri): string {
    RenderSsUri(u.cipher, u.password, u.host, u.port, u.tag)
  }

  /** What every parsed link satisfies. */
  predicate WellFormed(u: SsUri) {
    && u.cipher != [] && ':' !in u.cipher
    && u.password != []
    && u.host != [] && ':' !in u.host && '[' !in u.host && '@' !in u.host
    && 1 <= u.port < 0x1_0000
    && (u.tag.Some? ==> u.tag.value != [])
  }

  lemma PartsAreWellFormed(creds: string, hostport: string, tag: Option<string>)
    requires ParseParts(creds, hostport, tag).Ok?
    ensures var u := ParseParts(creds, hostport, tag).value;
            && u.cipher != [] && ':' !in u.cipher
            && u.password != []
            && u.host != [] && ':' !in u.host && '[' !in u.host
            && 1 <= u.port < 0x1_0000
            && u.tag == tag
            && (forall c :: c in u.host ==> c in hostport)
  {
    hide ParseU16;
  }

  /** Everything that parses, in either form, is well formed. */
  lemma ParsedIsWellFormed(uri: string)
    requires ParseSsUri(uri).Ok?
    ensures WellFormed(ParseSsUri(uri).value)
  {
    var rest := Trim(uri)[|SCHEME|..];
    var (beforeFragment, tag) := SplitFragment(rest);
    var body := DropQuery(beforeFragment);
    if '#' in rest {
      var t := SplitOnce(rest, '#').value.1;
      if t != [] {
        DecodeTagOfNonEmpty(t);
      }
    }
    match RSplitOnce(body, '@')
    case Some((creds, hostport)) =>
      PartsAreWellFormed(DecodeSection(creds).value, StripSlash(hostport), tag);
      assert '@' !in ParseSsUri(uri).value.host;
    case None =>
      var all := DecodeSection(body).value;
      var (creds, hostport) := RSplitOnce(all, '@').value;
      PartsAreWellFormed(creds, hostport, tag);
  }

  /** Well formed and safe to write before a `?` or a `#`. */
  predicate Renderable(u: SsUri) {
    WellFormed(u) && '#' !in u.host && '?' !in u.host
  }

  /** `DecodeSection` reads back what either alphabet wrote, however it was padded. */
  lemma DecodeSectionOf(al: Alphabet, text: string, pad: string)
    requires Padding(pad)
    ensures DecodeSection(EncodeText(al, Encode(text)) + pad) == Ok(text)
  {
    var bytes := Encode(text);
    var s := EncodeText(al, bytes);
    DecodeEncodeText(al, bytes);
    assert s != [] ==> Value(al, s[|s| - 1]).Some?;
    StripPaddingDrops(s, pad);
    DecodeEncode(text);
    if al == Standard && DecodeText(UrlSafe, s).Some? {
      AlphabetsAgree(s);
    }
  }

  lemma PartsParse(u: SsUri, port: string, tag: Option<string>)
    requires WellFormed(u) && Spells(port, u.port)
    ensures ParseParts(CredsText(u.cipher, u.password), HostPortText(u.host, port), tag) == Ok(u.(tag := tag))
  {
    CredsParse(u.cipher, u.password);
    HostPortParses(u.host, port, u.port);
  }

  lemma CredsParse(cipher: string, password: string)
    requires cipher != [] && ':' !in cipher && password != []
    ensures SplitCreds(CredsText(cipher, password)) == Ok((cipher, password))
  {
    SplitOnceAt(cipher, ':', password);
  }

  /** Every host and port, as written, is taken apart or turned away for the reason that applies to it. */
  lemma HostPortParses(host: string, port: string, n: nat)
    requires ':' !in port
    ensures Spells(port, n) && n < 0x1_0000 ==>
              SplitHostPort(HostPortText(host, port)) ==
              if host == [] then Err(EmptyHost)
              else if n == 0 then Err(ZeroPort)
              else if ':' in host || '[' in host then Err(Ipv6Host)
              else Ok((host, n))
    ensures (forall m :: Spells(port, m) ==> m >= 0x1_0000) ==> SplitHostPort(HostPortText(host, port)) == Err(BadPort)
  {
    RSplitOnceAt(host, ':', port);
    ParseU16ExactlyWhen(port, n);
    if (forall m :: Spells(port, m) ==> m >= 0x1_0000) && ParseU16(port).Some? {
      ParseU16ExactlyWhen(port, ParseU16(port).value);
    }
  }

  lemma SplitAtLast(s: string, c: char)
    ensures c !in s ==> RSplitOnce(s, c) == None
    ensures c in s ==> RSplitOnce(s, c).Some? && var (a, b) := RSplitOnce(s, c).value; s == a + [c] + b && c !in b
  {
    if c in s {
      var i := Last(s, c);
      assert s == s[..i] + [c] + s[i + 1..];
    }
  }

  /** What is taken for a host and a port is a host, a colon and that port, written out; with no colon there is none. */
  lemma HostPortParsed(s: string) returns (host: string, port: string)
    ensures ':' in s ==> s == HostPortText(host, port) && ':' !in port
    ensures ':' !in s ==> SplitHostPort(s) == Err(NoHostPort)
    ensures SplitHostPort(s).Ok? ==>
              && SplitHostPort(s).value.0 == host != [] && ':' !in host && '[' !in host
              && var n := SplitHostPort(s).value.1; 1 <= n < 0x1_0000 && Spells(port, n)
  {
    SplitAtLast(s, ':');
    hide RSplitOnce, ParseU16, Spells;
    host, port := [], [];
    if ':' in s {
      host, port := RSplitOnce(s, ':').value.0, RSplitOnce(s, ':').value.1;
      PortParsed(port);
    }
  }

  lemma PortParsed(port: string)
    ensures ParseU16(port).Some? ==> Spells(port, ParseU16(port).value)
  {
    hide ParseU16, Spells;
    if ParseU16(port).Some? {
      ParseU16ExactlyWhen(port, ParseU16(port).value);
    }
  }

  /** What an encoder of links may add around the parts: a slash, a query, a fragment. */
  datatype Trimmings = Trimmings(slash: bool, query: Option<string>, fragment: Option<string>)

  predicate Plain(t: Trimmings) {
    t.query.Some? ==> '#' !in t.query.value
  }

  function Marked(mark: char, part: Option<string>): string {
    if part.Some? then [mark] + part.value else []
  }

  function Tail(t: Trimmings): string {
    Marked('?', t.query) + Marked('#', t.fragment)
  }

  function TagOf(t: Trimmings): Option<string> {
    if t.fragment.Some? && t.fragment.value != [] then Some(DecodeTag(t.fragment.value)) else None
  }

  lemma QueryDrops(body: string, query: Option<string>)
    requires '?' !in body
    ensures DropQuery(body + Marked('?', query)) == body
  {
    if query.Some? {
      SplitOnceAt(body, '?', query.value);
      assert body + ['?'] + query.value == body + Marked('?', query);
    } else {
      assert body + [] == body;
    }
  }

  lemma FragmentSplits(before: string, t: Trimmings)
    requires '#' !in before
    ensures SplitFragment(before + Marked('#', t.fragment)) == (before, TagOf(t))
  {
    if t.fragment.Some? {
      SplitOnceAt(before, '#', t.fragment.value);
      assert before + ['#'] + t.fragment.value == before + Marked('#', t.fragment);
    } else {
      assert before + [] == before;
    }
  }

  lemma TailSplits(body: string, t: Trimmings)
    requires '#' !in body && '?' !in body
    requires Plain(t)
    ensures var (before, tag) := SplitFragment(body + Tail(t));
            DropQuery(before) == body && tag == TagOf(t)
  {
    var before := body + Marked('?', t.query);
    QueryDrops(body, t.query);
    FragmentSplits(before, t);
    ConcatAssociates(body, Marked('?', t.query), Marked('#', t.fragment));
  }

  /** `base64(method:password)@host:port`, with an optional slash. */
  function Sip002Body(al: Alphabet, pad: string, u: SsUri, port: string, slash: bool): string {
    (EncodeText(al, Encode(CredsText(u.cipher, u.password))) + pad) + ['@'] +
    (HostPortText(u.host, port) + (if slash then ['/'] else []))
  }

  function LegacyText(u: SsUri, port: string): string {
    CredsText(u.cipher, u.password) + ['@'] + HostPortText(u.host, port)
  }

  /** `base64(method:password@host:port)`. */
  function LegacyBody(al: Alphabet, pad: string, u: SsUri, port: string): string {
    EncodeText(al, Encode(LegacyText(u, port))) + pad
  }

  function Link(body: string, t: Trimmings): string {
    SCHEME + body + Tail(t)
  }

  lemma EncodedHasNoMarks(al: Alphabet, text: string, pad: string)
    requires Padding(pad)
    ensures var s := EncodeText(al, Encode(text)) + pad; '@' !in s && '#' !in s && '?' !in s
    ensures var s := EncodeText(al, Encode(text)) + pad; s != [] ==> !IsWhitespace(s[|s| - 1])
  {
    DecodeEncodeText(al, Encode(text));
    var e := EncodeText(al, Encode(text));
    var s := e + pad;
    forall i | 0 <= i < |s|
      ensures s[i] != '@' && s[i] != '#' && s[i] != '?' && !IsWhitespace(s[i])
    {
      assert if i < |e| then Value(al, s[i]).Some? else s[i] == '=';
    }
  }

  lemma HostPortHasNoMarks(u: SsUri, port: string, slash: bool)
    requires Spells(port, u.port)
    ensures var s := HostPortText(u.host, port) + (if slash then ['/'] else []);
            && ('@' !in u.host ==> '@' !in s)
            && ('#' !in u.host ==> '#' !in s)
            && ('?' !in u.host ==> '?' !in s)
            && !IsWhitespace(s[|s| - 1])
            && StripSlash(s) == HostPortText(u.host, port)
  {
    SpelledCharacters(port, u.port);
    var h := HostPortText(u.host, port);
    var s := h + (if slash then ['/'] else []);
    assert h[|h| - 1] == port[|port| - 1];
    assert forall i :: 0 <= i < |s| ==> s[i] in u.host || s[i] == ':' || s[i] in port || s[i] == '/';
  }

  lemma Sip002BodyParses(al: Alphabet, pad: string, u: SsUri, port: string, slash: bool, tag: Option<string>)
    requires WellFormed(u) && Padding(pad) && Spells(port, u.port)
    ensures ParseBody(Sip002Body(al, pad, u, port, slash), tag) == Ok(u.(tag := tag))
  {
    var creds := EncodeText(al, Encode(CredsText(u.cipher, u.password))) + pad;
    var shown := HostPortText(u.host, port) + (if slash then ['/'] else []);
    DecodeSectionOf(al, CredsText(u.cipher, u.password), pad);
    HostPortHasNoMarks(u, port, slash);
    RSplitOnceAt(creds, '@', shown);
    SpelledCharacters(port, u.port);
    PartsParse(u, port, tag);
  }

  lemma LegacyBodyParses(al: Alphabet, pad: string, u: SsUri, port: string, tag: Option<string>)
    requires WellFormed(u) && Padding(pad) && Spells(port, u.port)
    ensures ParseBody(LegacyBody(al, pad, u, port), tag) == Ok(u.(tag := tag))
  {
    DecodeSectionOf(al, LegacyText(u, port), pad);
    EncodedHasNoMarks(al, LegacyText(u, port), pad);
    HostPortHasNoMarks(u, port, false);
    assert HostPortText(u.host, port) + [] == HostPortText(u.host, port);
    RSplitOnceAt(CredsText(u.cipher, u.password), '@', HostPortText(u.host, port));
    PartsParse(u, port, tag);
  }

  /** A link is read without the whitespace around it. */
  lemma AroundALink(before: string, rest: string, after: string)
    requires rest != [] && !IsWhitespace(rest[|rest| - 1])
    requires Blank(before) && Blank(after)
    ensures var (beforeFragment, tag) := SplitFragment(rest);
            ParseSsUri(before + (SCHEME + rest) + after) == ParseBody(DropQuery(beforeFragment), tag)
  {
    hide ParseBody, SplitFragment, DropQuery, Trim;
    TrimAround(before, SCHEME + rest, after);
    assert (SCHEME + rest)[|SCHEME|..] == rest;
  }

  lemma LinkParses(before: string, body: string, t: Trimmings, after: string)
    requires '#' !in body && '?' !in body && body != []
    requires Plain(t)
    requires Blank(before) && Blank(after)
    requires !IsWhitespace(Link(body, t)[|Link(body, t)| - 1])
    ensures ParseSsUri(before + Link(body, t) + after) == ParseBody(body, TagOf(t))
  {
    hide ParseBody, SplitFragment, DropQuery, ParseSsUri, Tail;
    assert Link(body, t) == SCHEME + (body + Tail(t));
    AroundALink(before, body + Tail(t), after);
    TailSplits(body, t);
  }

  /**
   * Every SIP002 link of a renderable record reads back as that record: either alphabet, padded or not, the port in
   * any spelling, with or without the trailing slash, a query, whitespace around it, and any fragment as the tag.
   */
  lemma Sip002LinkParses(al: Alphabet, pad: string, u: SsUri, port: string, t: Trimmings, before: string, after: string)
    requires Renderable(u) && Padding(pad) && Spells(port, u.port) && Plain(t)
    requires Blank(before) && Blank(after)
    requires var link := Link(Sip002Body(al, pad, u, port, t.slash), t); !IsWhitespace(link[|link| - 1])
    ensures ParseSsUri(before + Link(Sip002Body(al, pad, u, port, t.slash), t) + after) == Ok(u.(tag := TagOf(t)))
  {
    EncodedHasNoMarks(al, CredsText(u.cipher, u.password), pad);
    HostPortHasNoMarks(u, port, t.slash);
    LinkParses(before, Sip002Body(al, pad, u, port, t.slash), t, after);
    Sip002BodyParses(al, pad, u, port, t.slash, TagOf(t));
  }

  /** Every legacy link of a well-formed record reads back as that record, in either alphabet, padded or not. */
  lemma LegacyLinkParses(al: Alphabet, pad: string, u: SsUri, port: string, t: Trimmings, before: string, after: string)
    requires WellFormed(u) && Padding(pad) && Spells(port, u.port) && Plain(t)
    requires Blank(before) && Blank(after)
    requires var link := Link(LegacyBody(al, pad, u, port), t); !IsWhitespace(link[|link| - 1])
    ensures ParseSsUri(before + Link(LegacyBody(al, pad, u, port), t) + after) == Ok(u.(tag := TagOf(t)))
  {
    EncodedHasNoMarks(al, LegacyText(u, port), pad);
    LinkParses(before, LegacyBody(al, pad, u, port), t, after);
    LegacyBodyParses(al, pad, u, port, TagOf(t));
  }

  // ----- What parses is nothing else -----

  /** Whatever decodes was written in one of the alphabets, with some padding. */
  lemma DecodedSection(s: string) returns (al: Alphabet, pad: string)
    requires DecodeSection(s).Ok?
    ensures Padding(pad) && s == EncodeText(al, Encode(DecodeSection(s).value)) + pad
  {
    pad := StripPaddingTakes(s);
    var trimmed := StripPadding(s);
    al := if DecodeText(UrlSafe, trimmed).Some? then UrlSafe else Standard;
    EncodeDecodeText(al, trimmed);
    EncodeDecode(DecodeText(al, trimmed).value);
  }

  lemma CredsParsed(s: string)
    requires SplitCreds(s).Ok?
    ensures var (cipher, password) := SplitCreds(s).value;
            s == CredsText(cipher, password) && cipher != [] && ':' !in cipher && password != []
  {
    var i := First(s, ':');
    assert s == s[..i] + [':'] + s[i + 1..];
  }

  lemma PartsParsed(creds: string, hostport: string, tag: Option<string>) returns (port: string)
    requires ParseParts(creds, hostport, tag).Ok?
    ensures var u := ParseParts(creds, hostport, tag).value;
            && creds == CredsText(u.cipher, u.password) && hostport == HostPortText(u.host, port)
            && Spells(port, u.port) && u.tag == tag
  {
    hide SplitHostPort, SplitCreds, Spells, HostPortText, CredsText;
    CredsParsed(creds);
    var host;
    host, port := HostPortParsed(hostport);
    assert ':' in hostport;
  }

  lemma SlashStripped(s: string)
    ensures s == StripSlash(s) + (if StripSlash(s) != s then ['/'] else [])
  {
  }

  lemma SipBodyParsed(body: string, tag: Option<string>) returns (al: Alphabet, pad: string, port: string, slash: bool)
    requires '@' in body && ParseBody(body, tag).Ok?
    ensures var u := ParseBody(body, tag).value;
            Padding(pad) && Spells(port, u.port) && u.tag == tag && body == Sip002Body(al, pad, u, port, slash)
  {
    var creds, hostport := RSplitOnce(body, '@').value.0, RSplitOnce(body, '@').value.1;
    assert DecodeSection(creds).Ok? && ParseBody(body, tag) == ParseParts(DecodeSection(creds).value, StripSlash(hostport), tag);
    hide *;
    SplitAtLast(body, '@');
    SlashStripped(hostport);
    slash := StripSlash(hostport) != hostport;
    al, pad := DecodedSection(creds);
    port := PartsParsed(DecodeSection(creds).value, StripSlash(hostport), tag);
    IsSipBody(body, creds, hostport, al, pad, ParseBody(body, tag).value, port, slash);
  }

  lemma IsSipBody(body: string, creds: string, hostport: string, al: Alphabet, pad: string, u: SsUri, port: string, slash: bool)
    requires body == creds + ['@'] + hostport
    requires creds == EncodeText(al, Encode(CredsText(u.cipher, u.password))) + pad
    requires hostport == HostPortText(u.host, port) + (if slash then ['/'] else [])
    ensures body == Sip002Body(al, pad, u, port, slash)
  {
    hide EncodeText, Encode, CredsText, HostPortText;
  }

  lemma PlainBodyParsed(body: string, tag: Option<string>) returns (al: Alphabet, pad: string, port: string)
    requires '@' !in body && ParseBody(body, tag).Ok?
    ensures var u := ParseBody(body, tag).value;
            Padding(pad) && Spells(port, u.port) && u.tag == tag && body == LegacyBody(al, pad, u, port)
  {
    assert RSplitOnce(body, '@') == None;
    hide DecodeSection, Spells, ParseParts, CredsText, HostPortText, EncodeText, Encode;
    al, pad := DecodedSection(body);
    var all := DecodeSection(body).value;
    assert '@' in all;
    SplitAtLast(all, '@');
    hide RSplitOnce;
    var (creds, hostport) := RSplitOnce(all, '@').value;
    port := PartsParsed(creds, hostport, tag);
  }

  lemma BodyParsed(body: string, tag: Option<string>) returns (al: Alphabet, pad: string, port: string, slash: bool)
    requires ParseBody(body, tag).Ok?
    ensures var u := ParseBody(body, tag).value;
            && Padding(pad) && Spells(port, u.port) && u.tag == tag
            && body == if '@' in body then Sip002Body(al, pad, u, port, slash) else LegacyBody(al, pad, u, port)
  {
    hide *;
    slash := false;
    if '@' in body {
      al, pad, port, slash := SipBodyParsed(body, tag);
    } else {
      al, pad, port := PlainBodyParsed(body, tag);
    }
  }

  lemma SplitAtFirst(s: string, c: char)
    ensures c !in s ==> SplitOnce(s, c) == None && s == s + []
    ensures c in s ==> SplitOnce(s, c).Some? && var (a, b) := SplitOnce(s, c).value; s == a + ([c] + b) && c !in a
  {
    if c in s {
      var i := First(s, c);
      assert s == s[..i] + ([c] + s[i + 1..]);
    }
  }

  lemma FragmentParsed(rest: string) returns (fragment: Option<string>)
    ensures var (before, tag) := SplitFragment(rest);
            && rest == before + Marked('#', fragment) && '#' !in before
            && tag == TagOf(Trimmings(false, None, fragment))
  {
    SplitAtFirst(rest, '#');
    hide SplitOnce, DecodeTag;
    fragment := if '#' in rest then Some(SplitOnce(rest, '#').value.1) else None;
  }

  lemma QueryParsed(before: string) returns (query: Option<string>)
    ensures before == DropQuery(before) + Marked('?', query) && '?' !in DropQuery(before)
  {
    SplitAtFirst(before, '?');
    hide SplitOnce;
    query := if '?' in before then Some(SplitOnce(before, '?').value.1) else None;
  }

  /** What follows the scheme is a body with neither mark in it, and its trimmings. */
  lemma TailParsed(rest: string) returns (t: Trimmings)
    ensures var (before, tag) := SplitFragment(rest);
            var body := DropQuery(before);
            && rest == body + Tail(t) && tag == TagOf(t) && Plain(t) && '#' !in body && '?' !in body
  {
    var fragment := FragmentParsed(rest);
    var before := SplitFragment(rest).0;
    var query := QueryParsed(before);
    t := Trimmings(false, query, fragment);
    hide SplitFragment, DropQuery;
    var body := DropQuery(before);
    ConcatAssociates(body, Marked('?', query), Marked('#', fragment));
    assert forall c :: c in body || c in Marked('?', query) ==> c in before;
    assert query.Some? ==> forall c :: c in query.value ==> c in Marked('?', query);
  }

  /** One way of writing a record as a link. */
  datatype Spelling = Spelling(al: Alphabet, pad: string, port: string, trimmings: Trimmings, before: string, after: string)

  ghost predicate IsSpelling(u: SsUri, w: Spelling) {
    && WellFormed(u) && u.tag == TagOf(w.trimmings)
    && Padding(w.pad) && Spells(w.port, u.port) && Plain(w.trimmings) && Blank(w.before) && Blank(w.after)
  }

  function Written(link: string, w: Spelling): string {
    w.before + link + w.after
  }

  /** `uri` is a SIP002 link of the record, so spelled. */
  ghost predicate IsSip002(uri: string, u: SsUri, w: Spelling) {
    var link := Link(Sip002Body(w.al, w.pad, u, w.port, w.trimmings.slash), w.trimmings);
    && IsSpelling(u, w) && '#' !in u.host && '?' !in u.host
    && !IsWhitespace(link[|link| - 1]) && uri == Written(link, w)
  }

  ghost predicate IsLegacy(uri: string, u: SsUri, w: Spelling) {
    var link := Link(LegacyBody(w.al, w.pad, u, w.port), w.trimmings);
    && IsSpelling(u, w)
    && !IsWhitespace(link[|link| - 1]) && uri == Written(link, w)
  }

  /** A link is whitespace, the scheme, what is read, and whitespace. */
  lemma SchemeParsed(uri: string) returns (before: string, rest: string, after: string)
    requires ParseSsUri(uri).Ok?
    ensures Blank(before) && Blank(after) && uri == before + (SCHEME + rest) + after
    ensures !IsWhitespace((SCHEME + rest)[|SCHEME + rest| - 1])
    ensures ParseSsUri(uri) == ParseBody(DropQuery(SplitFragment(rest).0), SplitFragment(rest).1)
  {
    before, after := TrimTakesBlanks(uri);
    var trimmed := Trim(uri);
    hide Trim, IsWhitespace, SplitFragment, DropQuery, ParseBody, Blank;
    rest := trimmed[|SCHEME|..];
    assert trimmed == SCHEME + rest;
  }

  lemma Parsed(uri: string) returns (w: Spelling)
    requires ParseSsUri(uri).Ok?
    ensures var u := ParseSsUri(uri).value; IsSip002(uri, u, w) || IsLegacy(uri, u, w)
  {
    hide *;
    ParsedIsWellFormed(uri);
    var before, rest, after := SchemeParsed(uri);
    var body, tag := DropQuery(SplitFragment(rest).0), SplitFragment(rest).1;
    var t := TailParsed(rest);
    var al, pad, port, slash := BodyParsed(body, tag);
    HostIsUnmarked(body, tag);
    w := Spelling(al, pad, port, Trimmings(slash, t.query, t.fragment), before, after);
    SlashChangesNothing(t, slash);
    ConcatAssociates(SCHEME, body, Tail(t));
    IsWritten(uri, ParseSsUri(uri).value, w, body, SCHEME + rest);
  }

  lemma SlashChangesNothing(t: Trimmings, slash: bool)
    ensures var t' := Trimmings(slash, t.query, t.fragment);
            Tail(t') == Tail(t) && TagOf(t') == TagOf(t) && (Plain(t') <==> Plain(t))
  {
  }

  lemma IsWritten(uri: string, u: SsUri, w: Spelling, body: string, trimmed: string)
    requires WellFormed(u) && u.tag == TagOf(w.trimmings) && ('@' in body ==> '#' !in u.host && '?' !in u.host)
    requires Padding(w.pad) && Spells(w.port, u.port) && Plain(w.trimmings) && Blank(w.before) && Blank(w.after)
    requires body == if '@' in body then Sip002Body(w.al, w.pad, u, w.port, w.trimmings.slash)
                     else LegacyBody(w.al, w.pad, u, w.port)
    requires trimmed == SCHEME + body + Tail(w.trimmings) && uri == w.before + trimmed + w.after
    requires !IsWhitespace(trimmed[|trimmed| - 1])
    ensures IsSip002(uri, u, w) || IsLegacy(uri, u, w)
  {
    hide Sip002Body, LegacyBody, Spells, WellFormed, TagOf, Padding, Blank, Tail, Plain, IsWhitespace;
  }

  lemma HostIsUnmarked(body: string, tag: Option<string>)
    requires ParseBody(body, tag).Ok? && '#' !in body && '?' !in body
    ensures '@' in body ==> var host := ParseBody(body, tag).value.host; '#' !in host && '?' !in host
  {
    if '@' in body {
      SipHostIsInBody(body, tag);
    }
  }

  /** A link is read as a record exactly when it is one of the ways of writing it, in either form, and as nothing else. */
  lemma ParsesExactlyWhen(uri: string, u: SsUri)
    ensures ParseSsUri(uri) == Ok(u) <==> exists w :: IsSip002(uri, u, w) || IsLegacy(uri, u, w)
  {
    hide ParseSsUri;
    if ParseSsUri(uri) == Ok(u) {
      var w := Parsed(uri);
    }
    if w :| IsSip002(uri, u, w) || IsLegacy(uri, u, w) {
      WrittenParses(uri, u, w);
    }
  }

  lemma WrittenParses(uri: string, u: SsUri, w: Spelling)
    requires IsSip002(uri, u, w) || IsLegacy(uri, u, w)
    ensures ParseSsUri(uri) == Ok(u)
  {
    hide ParseSsUri;
    if IsSip002(uri, u, w) {
      Sip002LinkParses(w.al, w.pad, u, w.port, w.trimmings, w.before, w.after);
    } else {
      LegacyLinkParses(w.al, w.pad, u, w.port, w.trimmings, w.before, w.after);
    }
  }

  /** What a record reads back as: an empty tag is no tag. */
  function Normal(u: SsUri): SsUri {
    if u.tag == Some([]) then u.(tag := None) else u
  }

  /** What rendering puts after the body. */
  function RenderedTail(u: SsUri): Trimmings {
    Trimmings(false, None, if u.tag.Some? && u.tag.value != [] then Some(EncodeTag(u.tag.value)) else None)
  }

  /** The fragment is all there is to the tail of a rendered link, and it is the tag or nothing. */
  lemma RenderedFragment(u: SsUri)
    ensures Fragment(u.tag) == Tail(RenderedTail(u))
    ensures TagOf(RenderedTail(u)) == Normal(u).tag
    ensures Fragment(u.tag) != [] ==> !IsWhitespace(Fragment(u.tag)[|Fragment(u.tag)| - 1])
  {
    if u.tag.Some? && u.tag.value != [] {
      var e := EncodeTag(u.tag.value);
      EscapeIsSafe(Encode(u.tag.value));
      assert Encode(u.tag.value) != [];
      DecodeEncodeTag(u.tag.value);
      hide EncodeTag, DecodeTag;
      assert "#" + e == [] + ("#" + e);
    }
  }

  lemma RenderShape(u: SsUri)
    ensures Render(u) == Link(Sip002Body(UrlSafe, [], u, Decimal(u.port), false), RenderedTail(u))
    ensures !IsWhitespace(Render(u)[|Render(u)| - 1])
    ensures TagOf(RenderedTail(u)) == Normal(u).tag
  {
    RenderedFragment(u);
    DecimalSpells(u.port);
    HostPortHasNoMarks(u, Decimal(u.port), false);
    hide Fragment, Tail, RenderedTail, TagOf, EncodeText, Encode, CredsText, IsWhitespace, StripSlash, HostPortText, Decimal;
    hide Spells;
    var creds := EncodeText(UrlSafe, Encode(CredsText(u.cipher, u.password)));
    var hostport, fragment := HostPortText(u.host, Decimal(u.port)), Fragment(u.tag);
    NothingAdded(creds);
    NothingAdded(hostport);
    ConcatAssociates(SCHEME, creds + ['@'] + hostport, fragment);
    EndOfRendered(creds, hostport, fragment);
  }

  lemma NothingAdded(s: string)
    ensures s + [] == s
  {
  }

  lemma EndOfRendered(creds: string, hostport: string, fragment: string)
    requires hostport != []
    ensures var s := SCHEME + (creds + ['@'] + hostport) + fragment;
            s != [] && s[|s| - 1] == if fragment == [] then hostport[|hostport| - 1] else fragment[|fragment| - 1]
  {
  }

  lemma BodyHasNoTag(al: Alphabet, pad: string, u: SsUri, port: string, tag: Option<string>, slash: bool)
    ensures Sip002Body(al, pad, u.(tag := tag), port, slash) == Sip002Body(al, pad, u, port, slash)
  {
    hide EncodeText, Encode, CredsText, HostPortText;
  }

  lemma RenderableRoundTrips(u: SsUri)
    requires Renderable(Normal(u))
    ensures ParseSsUri(Render(u)) == Ok(Normal(u))
  {
    var n, t := u.(tag := Normal(u).tag), RenderedTail(u);
    assert n == Normal(u) && Plain(t) && !t.slash;
    assert Padding([]) && Blank([]) && [] + Render(u) + [] == Render(u);
    hide *;
    RenderShape(u);
    DecimalSpells(u.port);
    BodyHasNoTag(UrlSafe, [], u, Decimal(u.port), Normal(u).tag, false);
    Sip002LinkParses(UrlSafe, [], n, Decimal(u.port), t, [], []);
  }

  lemma RoundTripMeansRenderable(u: SsUri)
    requires u.port < 0x1_0000 && ParseSsUri(Render(u)) == Ok(Normal(u))
    ensures Renderable(Normal(u))
  {
    hide ParseSsUri, Render;
    ParsedIsWellFormed(Render(u));
    RenderedHostHasNoMarks(u);
  }

  /**
   * Rendering then parsing gives the record back, an empty tag aside, exactly when the record is
   * renderable: the only losses are the ones the link's own punctuation forces.
   */
  lemma RoundTripsExactlyWhen(u: SsUri)
    requires u.port < 0x1_0000
    ensures ParseSsUri(Render(u)) == Ok(Normal(u)) <==> Renderable(Normal(u))
  {
    hide *;
    if Renderable(Normal(u)) {
      RenderableRoundTrips(u);
    }
    if ParseSsUri(Render(u)) == Ok(Normal(u)) {
      RoundTripMeansRenderable(u);
    }
  }

  /** A rendered link is read in the SIP002 form, whose host ends before any `?` or `#`. */
  lemma RenderedHostHasNoMarks(u: SsUri)
    requires ParseSsUri(Render(u)).Ok?
    ensures var host := ParseSsUri(Render(u)).value.host; '#' !in host && '?' !in host
  {
    var creds := EncodeText(UrlSafe, Encode(CredsText(u.cipher, u.password)));
    RenderTrims(u);
    EncodedHasNoMarks(UrlSafe, CredsText(u.cipher, u.password), []);
    assert creds + [] == creds;
    MarkedHost(RenderedRest(u), creds);
  }

  /** What rendering puts after the scheme. */
  function RenderedRest(u: SsUri): string {
    EncodeText(UrlSafe, Encode(CredsText(u.cipher, u.password)))
    + (['@'] + HostPortText(u.host, Decimal(u.port)) + Fragment(u.tag))
  }

  lemma RenderIs(u: SsUri)
    ensures Render(u) == SCHEME + RenderedRest(u)
  {
    hide Fragment, HostPortText, CredsText, EncodeText, Encode;
    var creds := EncodeText(UrlSafe, Encode(CredsText(u.cipher, u.password)));
    var hostport, fragment := HostPortText(u.host, Decimal(u.port)), Fragment(u.tag);
    ConcatAssociates(SCHEME, creds + ['@'] + hostport, fragment);
    ConcatAssociates(creds, ['@'], hostport);
    ConcatAssociates(creds, ['@'] + hostport, fragment);
  }

  lemma RenderTrims(u: SsUri)
    ensures var (beforeFragment, tag) := SplitFragment(RenderedRest(u));
            ParseSsUri(Render(u)) == ParseBody(DropQuery(beforeFragment), tag)
  {
    hide ParseBody, SplitFragment, DropQuery, ParseSsUri, Render, RenderedRest, Sip002Body, RenderedTail, Link, TagOf;
    var rest := RenderedRest(u);
    RenderShape(u);
    RenderIs(u);
    RestIsNotBlank(u);
    assert rest[|rest| - 1] == Render(u)[|Render(u)| - 1];
    AroundALink([], rest, []);
    assert [] + (SCHEME + rest) + [] == Render(u);
  }

  lemma RestIsNotBlank(u: SsUri)
    ensures RenderedRest(u) != []
  {
  }

  lemma MarkedHost(rest: string, creds: string)
    requires |creds| < |rest| && rest[..|creds|] == creds && rest[|creds|] == '@'
    requires '#' !in creds && '?' !in creds
    requires ParseBody(DropQuery(SplitFragment(rest).0), SplitFragment(rest).1).Ok?
    ensures var host := ParseBody(DropQuery(SplitFragment(rest).0), SplitFragment(rest).1).value.host;
            '#' !in host && '?' !in host
  {
    var before := SplitFragment(rest).0;
    KeepsFirstMark(rest, creds, before, '#');
    KeepsFirstMark(before, creds, DropQuery(before), '?');
    SipHostIsInBody(DropQuery(before), SplitFragment(rest).1);
  }

  lemma SipHostIsInBody(body: string, tag: Option<string>)
    requires '@' in body
    requires ParseBody(body, tag).Ok?
    ensures forall c :: c in ParseBody(body, tag).value.host ==> c in body
  {
    var (creds, hostport) := RSplitOnce(body, '@').value;
    PartsAreWellFormed(DecodeSection(creds).value, StripSlash(hostport), tag);
    assert forall c :: c in StripSlash(hostport) ==> c in hostport;
  }

  lemma KeepsFirstMark(s: string, creds: string, before: string, mark: char)
    requires |creds| < |s| && s[..|creds|] == creds && s[|creds|] == '@'
    requires mark !in creds && mark != '@'
    requires before == if mark in s then SplitOnce(s, mark).value.0 else s
    ensures |creds| < |before| && before[..|creds|] == creds && before[|creds|] == '@'
    ensures mark !in before
    ensures forall c :: c in before ==> c in s
  {
    if mark in s {
      var i := First(s, mark);
      assert forall k :: 0 <= k < |creds| ==> s[k] == creds[k];
    }
  }

  /**
   * Any link that parses, in whatever form it came, can be rendered and parsed again without change,
   * unless a legacy link carried a host with `#` or `?` in it.
   */
  lemma ReRendersExactlyWhen(uri: string)
    requires ParseSsUri(uri).Ok?
    ensures var u := ParseSsUri(uri).value;
            ParseSsUri(Render(u)) == Ok(u) <==> '#' !in u.host && '?' !in u.host
  {
    ParsedIsWellFormed(uri);
    RoundTripsExactlyWhen(ParseSsUri(uri).value);
  }

  /** The two forms of the same record, however each was encoded and padded, parse alike. */
  lemma FormsAgree(al: Alphabet, pad: string, port: string, al': Alphabet, pad': string, port': string, u: SsUri)
    requires Renderable(u) && u.tag.None?
    requires Padding(pad) && Padding(pad') && Spells(port, u.port) && Spells(port', u.port)
    ensures ParseSsUri(SCHEME + LegacyBody(al, pad, u, port)) ==
            ParseSsUri(SCHEME + Sip002Body(al', pad', u, port', false)) == Ok(u)
  {
    hide ParseSsUri, EncodeText, Encode, CredsText, Spells;
    var t := Trimmings(false, None, None);
    var legacy, sip := SCHEME + LegacyBody(al, pad, u, port), SCHEME + Sip002Body(al', pad', u, port', false);
    assert [] + Link(LegacyBody(al, pad, u, port), t) + [] == legacy;
    assert [] + Link(Sip002Body(al', pad', u, port', false), t) + [] == sip;
    EncodedHasNoMarks(al, LegacyText(u, port), pad);
    HostPortHasNoMarks(u, port', false);
    LegacyLinkParses(al, pad, u, port, t, [], []);
    Sip002LinkParses(al', pad', u, port', t, [], []);
  }
}

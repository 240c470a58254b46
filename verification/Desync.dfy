/** The desync fields stamped onto client links: a percent-encoding the reading client
    undoes (section 2.1 of RFC 3986), and where in the link they go. */
module DesyncLinks {

  import opened Texts
  import opened Wrappers

  // ---------- One value ----------

  /** Text is bytes. */
  predicate IsBytes(s: string) {
    forall i :: 0 <= i < |s| ==> s[i] as int < 256
  }

  predicate Unreserved(c: char) {
    'a' <= c <= 'z' || 'A' <= c <= 'Z' || '0' <= c <= '9' || c in "-_.~"
  }

  const HEX := "0123456789ABCDEF"

  function Percent(c: char): (r: string)
    requires c as int < 256
    ensures |r| == 3 && r[0] == '%'
  {
    ['%', HEX[c as int / 16], HEX[c as int % 16]]
  }

  /** What one byte becomes. */
  function Encoded(c: char): (r: string)
    requires c as int < 256
    ensures r != ""
  {
    if Unreserved(c) then [c] else Percent(c)
  }

  function QueryEscape(s: string): string
    requires IsBytes(s)
  {
    if s == "" then ""
    else
      (if s[0] == ' ' then "+" else Encoded(s[0])) + QueryEscape(s[1..])
  }

  function ReplaceAll(s: string, c: char, with: string): string {
    if s == "" then "" else (if s[0] == c then with else [s[0]]) + ReplaceAll(s[1..], c, with)
  }

  function UriComponent(s: string): string
    requires IsBytes(s)
  {
    ReplaceAll(QueryEscape(s), '+', "%20")
  }

  function Unhex(c: char): Option<int> {
    if '0' <= c <= '9' then Some(c as int - '0' as int)
    else if 'A' <= c <= 'F' then Some(c as int - 'A' as int + 10)
    else if 'a' <= c <= 'f' then Some(c as int - 'a' as int + 10)
    else None
  }

  /** Percent-decoding; readers differ in what a plus sign means. */
  function Unescape(s: string, plus: char): Option<string> {
    if s == "" then Some("")
    else if s[0] == '%' then
      if |s| < 3 then None
      else
        match (Unhex(s[1]), Unhex(s[2]), Unescape(s[3..], plus))
        case (Some(hi), Some(lo), Some(rest)) => Some([(16 * hi + lo) as char] + rest)
        case _ => None
    else
      match Unescape(s[1..], plus)
      case Some(rest) => Some([if s[0] == '+' then plus else s[0]] + rest)
      case None => None
  }

  lemma {:induction false} ReplaceConcat(a: string, b: string, c: char, with: string)
    ensures ReplaceAll(a + b, c, with) == ReplaceAll(a, c, with) + ReplaceAll(b, c, with)
  {
    if a == "" {
      assert a + b == b;
    } else {
      assert (a + b)[1..] == a[1..] + b;
      ReplaceConcat(a[1..], b, c, with);
    }
  }

  /** One byte of the value at a time. */
  lemma ComponentStep(s: string)
    requires IsBytes(s) && s != ""
    ensures UriComponent(s) == Encoded(s[0]) + UriComponent(s[1..])
  {
    var c := s[0];
    var head := if c == ' ' then "+" else Encoded(c);
    assert ReplaceAll(head, '+', "%20") == Encoded(c) by {
      if c == ' ' {
        assert ReplaceAll("+", '+', "%20") == "%20" == Percent(' ');
      } else if !Unreserved(c) {
        PercentKept(c);
      }
    }
    hide ReplaceAll, Encoded;
    ReplaceConcat(head, QueryEscape(s[1..]), '+', "%20");
  }

  lemma PercentKept(c: char)
    requires c as int < 256
    ensures ReplaceAll(Percent(c), '+', "%20") == Percent(c)
  {
    var p := Percent(c);
    HexDigits(c as int / 16);
    HexDigits(c as int % 16);
    assert p[1..][1..][1..] == "";
    assert ReplaceAll(p[1..][1..], '+', "%20") == [p[2]];
    assert ReplaceAll(p[1..], '+', "%20") == [p[1], p[2]];
  }

  lemma HexDigits(n: int)
    requires 0 <= n < 16
    ensures Unhex(HEX[n]) == Some(n) && Unreserved(HEX[n])
  {
  }

  predicate Safe(c: char) {
    Unreserved(c) || c == '%'
  }

  lemma EncodedSafe(c: char)
    requires c as int < 256
    ensures forall i :: 0 <= i < |Encoded(c)| ==> Safe(Encoded(c)[i])
  {
    HexDigits(c as int / 16);
    HexDigits(c as int % 16);
  }

  lemma {:induction false} ComponentIsSafe(s: string)
    requires IsBytes(s)
    ensures forall i :: 0 <= i < |UriComponent(s)| ==> Safe(UriComponent(s)[i])
  {
    if s != "" {
      ComponentStep(s);
      ComponentIsSafe(s[1..]);
      EncodedSafe(s[0]);
      hide UriComponent, Safe, Encoded;
    }
  }

  /** Only unreserved characters and percent signs come out: no plus, equals sign,
      ampersand, hash, question mark, semicolon or space. */
  lemma ComponentAlphabet(s: string, c: char)
    requires IsBytes(s) && c in "+=&#;? "
    ensures c !in UriComponent(s)
  {
    ComponentIsSafe(s);
    assert !Safe(c);
    hide UriComponent, Safe;
  }

  lemma EncodedDecodes(c: char, rest: string, plus: char)
    requires c as int < 256
    ensures Unescape(Encoded(c) + rest, plus) ==
      match Unescape(rest, plus) case Some(t) => Some([c] + t) case None => None
  {
    if Unreserved(c) {
      assert ([c] + rest)[1..] == rest;
    } else {
      HexDigits(c as int / 16);
      HexDigits(c as int % 16);
      assert (Percent(c) + rest)[3..] == rest;
    }
  }

  /** Every byte string comes back, whatever the reader takes a plus sign for. */
  lemma {:induction false} ComponentDecodes(s: string, plus: char)
    requires IsBytes(s)
    ensures Unescape(UriComponent(s), plus) == Some(s)
  {
    if s != "" {
      ComponentStep(s);
      ComponentDecodes(s[1..], plus);
      EncodedDecodes(s[0], UriComponent(s[1..]), plus);
      assert [s[0]] + s[1..] == s;
      hide UriComponent, Encoded, Unescape;
    }
  }

  // ---------- The link ----------

  datatype Desync = Desync(profile: string, args: string)

  datatype Field = Skip | Bad | Pair(key: string, value: string)

  type Values = seq<(string, string)>

  /** One field as the panel's own query parser reads it. */
  function ReadField(f: string): Field {
    if ';' in f then Bad
    else if f == "" then Skip
    else
      var n := IndexOf(f, '=');
      match (Unescape(f[..n], ' '), Unescape(if n < |f| then f[n + 1..] else "", ' '))
      case (Some(k), Some(v)) => Pair(k, v)
      case _ => Bad
  }

  /** All fields in order, or nothing when any is malformed. */
  function ParseFields(fields: seq<string>): Option<Values> {
    if fields == [] then Some([])
    else
      match (ParseFields(fields[..|fields| - 1]), ReadField(fields[|fields| - 1]))
      case (Some(vals), Skip) => Some(vals)
      case (Some(vals), Pair(k, v)) => Some(vals + [(k, v)])
      case _ => None
  }

  predicate Has(vals: Values, key: string) {
    exists i :: 0 <= i < |vals| && vals[i].0 == key
  }

  function Get(vals: Values, key: string): string {
    if vals == [] then "" else if vals[0].0 == key then vals[0].1 else Get(vals[1..], key)
  }

  function Body(uri: string): string {
    uri[..IndexOf(uri, '#')]
  }

  function Fragment(uri: string): string {
    uri[IndexOf(uri, '#')..]
  }

  /** The fields of a link's query; none without a query. */
  function Fields(uri: string): seq<string> {
    var q := IndexOf(Body(uri), '?');
    if q < |Body(uri)| then Split(Body(uri)[q + 1..], '&') else []
  }

  predicate Stamps(uri: string, d: Desync) {
    && d.profile != ""
    && ("vless://" <= uri || "trojan://" <= uri)
    && '?' in Body(uri)
    && match ParseFields(Fields(uri))
       case None => false
       case Some(vals) => !Has(vals, "png") && Get(vals, "security") in ["tls", "reality"]
  }

  predicate Encodable(d: Desync) {
    IsBytes(d.profile) && IsBytes(d.args)
  }

  predicate WithArgs(d: Desync) {
    d.profile == "Custom" && d.args != ""
  }

  function KeyField(key: string, value: string): string
    requires IsBytes(value)
  {
    key + ("=" + UriComponent(value))
  }

  function PngField(d: Desync): string
    requires Encodable(d)
  {
    KeyField("png", d.profile)
  }

  function ArgsField(d: Desync): string
    requires Encodable(d)
  {
    KeyField("pngargs", d.args)
  }

  function Added(d: Desync): string
    requires Encodable(d)
  {
    if WithArgs(d) then "&" + PngField(d) + ("&" + ArgsField(d)) else "&" + PngField(d)
  }

  function StampDesync(uri: string, d: Desync): string
    requires Encodable(d)
  {
    if Stamps(uri, d) then Body(uri) + Added(d) + Fragment(uri) else uri
  }

  /** The new fields. */
  function Stamped(d: Desync): seq<string>
    requires Encodable(d)
  {
    if WithArgs(d) then [PngField(d), ArgsField(d)] else [PngField(d)]
  }

  lemma SplitOne(query: string, field: string)
    requires '&' !in field
    ensures Split(query + ("&" + field), '&') == Split(query, '&') + [field]
  {
    SplitNone(field, '&');
    SplitConcat(query, field, '&');
  }

  lemma SplitTwo(query: string, f: string, g: string)
    requires '&' !in f && '&' !in g
    ensures Split(query + ("&" + f + ("&" + g)), '&') == Split(query, '&') + [f, g]
  {
    hide Split;
    var more := query + ("&" + f);
    SplitOne(query, f);
    SplitOne(more, g);
    assert query + ("&" + f + ("&" + g)) == more + ("&" + g);
  }

  lemma FieldsHaveNo(d: Desync, c: char)
    requires Encodable(d) && c in "&#?;"
    ensures c !in PngField(d) && c !in ArgsField(d)
  {
    ComponentAlphabet(d.profile, c);
    ComponentAlphabet(d.args, c);
    hide UriComponent;
  }

  lemma AddedHasNoHash(d: Desync)
    requires Encodable(d)
    ensures '#' !in Added(d)
  {
    FieldsHaveNo(d, '#');
    hide PngField, ArgsField;
  }

  lemma AddedSplits(d: Desync, query: string)
    requires Encodable(d)
    ensures Split(query + Added(d), '&') == Split(query, '&') + Stamped(d)
  {
    FieldsHaveNo(d, '&');
    hide PngField, ArgsField, Split, WithArgs;
    SplitOne(query, PngField(d));
    SplitTwo(query, PngField(d), ArgsField(d));
  }

  lemma BodyAndFragment(body: string, frag: string)
    requires '#' !in body && (frag == "" || frag[0] == '#')
    ensures Body(body + frag) == body && Fragment(body + frag) == frag
  {
    IndexOfSkips(body, frag, '#');
  }

  lemma QueryGrows(body: string, more: string)
    requires '?' in body
    ensures var q := IndexOf(body, '?');
      q < |body| && IndexOf(body + more, '?') == q && (body + more)[q + 1..] == body[q + 1..] + more
  {
    IndexOfStops(body, more, '?');
    hide IndexOf;
  }

  /** The link keeps every byte it had: what precedes the fragment, then the new fields,
      then the fragment; and the query is the old one with the new fields at its end. */
  lemma StampKeepsLink(uri: string, d: Desync)
    requires Encodable(d) && Stamps(uri, d)
    ensures Body(uri) + Fragment(uri) == uri
    ensures Body(StampDesync(uri, d)) == Body(uri) + Added(d)
    ensures Fragment(StampDesync(uri, d)) == Fragment(uri)
    ensures Fields(StampDesync(uri, d)) == Fields(uri) + Stamped(d)
  {
    hide Added, Stamped, ParseFields, Get, Has, Split, IndexOf;
    AddedHasNoHash(d);
    BodyAndFragment(Body(uri) + Added(d), Fragment(uri));
    QueryGrows(Body(uri), Added(d));
    AddedSplits(d, Body(uri)[IndexOf(Body(uri), '?') + 1..]);
  }

  /** A field is read as what its two halves decode to. */
  lemma ReadPair(key: string, encoded: string, value: string)
    requires '=' !in key && ';' !in key && ';' !in encoded
    requires Unescape(key, ' ') == Some(key) && Unescape(encoded, ' ') == Some(value)
    ensures ReadField(key + ("=" + encoded)) == Pair(key, value)
  {
    var f := key + ("=" + encoded);
    IndexOfSkips(key, "=" + encoded, '=');
    assert f[..|key|] == key && f[|key| + 1..] == encoded;
    hide Unescape;
  }

  lemma ReadsBack(key: string, value: string)
    requires IsBytes(value) && key in ["png", "pngargs"]
    ensures ReadField(KeyField(key, value)) == Pair(key, value)
  {
    ComponentAlphabet(value, ';');
    ComponentDecodes(value, ' ');
    Literal(key);
    hide UriComponent, ReadField, Unescape;
    ReadPair(key, UriComponent(value), value);
  }

  lemma Literal(key: string)
    requires key in ["png", "pngargs"]
    ensures Unescape(key, ' ') == Some(key)
  {
    LiteralUnescapes(key);
  }

  lemma {:induction false} LiteralUnescapes(key: string)
    requires forall i :: 0 <= i < |key| ==> 'a' <= key[i] <= 'z'
    ensures Unescape(key, ' ') == Some(key)
  {
    if key != "" {
      LiteralUnescapes(key[1..]);
      assert [key[0]] + key[1..] == key;
    }
  }

  lemma StampedReadBack(d: Desync)
    requires Encodable(d)
    ensures ReadField(PngField(d)) == Pair("png", d.profile) && ReadField(ArgsField(d)) == Pair("pngargs", d.args)
  {
    ReadsBack("png", d.profile);
    ReadsBack("pngargs", d.args);
    hide KeyField, ReadField;
  }

  lemma ParsePush(fields: seq<string>, f: string)
    requires ParseFields(fields).Some? && ReadField(f).Pair?
    ensures ParseFields(fields + [f]) == Some(ParseFields(fields).value + [(ReadField(f).key, ReadField(f).value)])
  {
    hide ReadField;
    assert (fields + [f])[..|fields|] == fields;
  }

  lemma ParseStamped(was: seq<string>, d: Desync)
    requires Encodable(d) && ParseFields(was).Some?
    ensures ParseFields(was + Stamped(d)) == Some(ParseFields(was).value + NewValues(d))
  {
    hide ParseFields;
    StampedReadBack(d);
    hide PngField, ArgsField, ReadField, WithArgs;
    var png, args := PngField(d), ArgsField(d);
    ParsePush(was, png);
    if WithArgs(d) {
      ParsePush(was + [png], args);
      Twice(was, png, args);
      Twice(ParseFields(was).value, ("png", d.profile), ("pngargs", d.args));
    }
  }

  lemma Twice<T>(s: seq<T>, a: T, b: T)
    ensures s + [a, b] == s + [a] + [b]
  {
  }

  function NewValues(d: Desync): Values {
    if WithArgs(d) then [("png", d.profile), ("pngargs", d.args)] else [("png", d.profile)]
  }

  /** What the panel's own parser then sees: every old value, and the configured ones. */
  lemma StampReads(uri: string, d: Desync)
    requires Encodable(d) && Stamps(uri, d)
    ensures ParseFields(Fields(StampDesync(uri, d))) == Some(ParseFields(Fields(uri)).value + NewValues(d))
  {
    StampKeepsLink(uri, d);
    StampsParses(uri, d);
    hide Fields, StampDesync, Stamps, ParseFields, Stamped, NewValues, Added, Body, Fragment;
    ParseStamped(Fields(uri), d);
  }

  lemma StampsParses(uri: string, d: Desync)
    requires Stamps(uri, d)
    ensures ParseFields(Fields(uri)).Some? && !Has(ParseFields(Fields(uri)).value, "png")
  {
  }

  /** Stamping a stamped link, with whatever setting, changes nothing. */
  lemma StampIdempotent(uri: string, d: Desync, d': Desync)
    requires Encodable(d) && Encodable(d') && Stamps(uri, d)
    ensures StampDesync(StampDesync(uri, d), d') == StampDesync(uri, d)
  {
    StampReads(uri, d);
    var vals := ParseFields(Fields(StampDesync(uri, d))).value;
    hide ParseFields;
    assert vals[|ParseFields(Fields(uri)).value|].0 == "png";
    assert Has(vals, "png");
  }

  // ---------- The client that reads it ----------

  function PingKey(f: string): string {
    f[..IndexOf(f, '=')]
  }

  /** A field's value is what stands between its first and its second equals sign. */
  function PingValue(f: string): string {
    var n := IndexOf(f, '=');
    if n == |f| then "" else f[n + 1..][..IndexOf(f[n + 1..], '=')]
  }

  /** The raw values under a name, in order. */
  function Named(fields: seq<string>, key: string): seq<string> {
    if fields == [] then []
    else
      var last := fields[|fields| - 1];
      Named(fields[..|fields| - 1], key) + if PingKey(last) == key then [PingValue(last)] else []
  }

  lemma PingReads(key: string, value: string)
    requires IsBytes(value) && '=' !in key
    ensures PingKey(KeyField(key, value)) == key && PingValue(KeyField(key, value)) == UriComponent(value)
  {
    ComponentAlphabet(value, '=');
    hide UriComponent;
    var v := UriComponent(value);
    IndexOfSkips(key, "=" + v, '=');
    assert KeyField(key, value)[|key| + 1..] == v;
    assert v + "" == v;
    IndexOfSkips(v, "", '=');
  }

  lemma StampedNamed(d: Desync)
    requires Encodable(d)
    ensures PingKey(PngField(d)) == "png" && PingValue(PngField(d)) == UriComponent(d.profile)
    ensures PingKey(ArgsField(d)) == "pngargs" && PingValue(ArgsField(d)) == UriComponent(d.args)
  {
    PingReads("png", d.profile);
    PingReads("pngargs", d.args);
    hide UriComponent, PingKey, PingValue, KeyField;
  }

  lemma NamedPush(fields: seq<string>, f: string, key: string)
    ensures Named(fields + [f], key) == Named(fields, key) + if PingKey(f) == key then [PingValue(f)] else []
  {
    hide PingKey, PingValue;
    assert (fields + [f])[..|fields|] == fields;
  }

  /** A field the client would take for png is one the panel's parser sees. */
  lemma {:induction false} NoneNamedPng(fields: seq<string>)
    requires ParseFields(fields).Some?
    ensures Named(fields, "png") != [] ==> Has(ParseFields(fields).value, "png")
  {
    if fields != [] {
      var front, last := fields[..|fields| - 1], fields[|fields| - 1];
      var vals, before := ParseFields(fields).value, ParseFields(front).value;
      NoneNamedPng(front);
      if Has(before, "png") {
        var i :| 0 <= i < |before| && before[i].0 == "png";
        assert vals[i].0 == "png";
      } else if PingKey(last) == "png" {
        LiteralUnescapes("png");
        assert vals[|vals| - 1].0 == "png";
      }
    }
  }

  lemma NamedStamped(was: seq<string>, d: Desync)
    requires Encodable(d)
    ensures Named(was + Stamped(d), "png") == Named(was, "png") + [UriComponent(d.profile)]
    ensures Named(was + Stamped(d), "pngargs") ==
      Named(was, "pngargs") + if WithArgs(d) then [UriComponent(d.args)] else []
  {
    StampedNamed(d);
    hide PngField, ArgsField, UriComponent, PingKey, PingValue, Named, WithArgs;
    var png, args := PngField(d), ArgsField(d);
    NamedPush(was, png, "png");
    NamedPush(was, png, "pngargs");
    if WithArgs(d) {
      NamedPush(was + [png], args, "png");
      NamedPush(was + [png], args, "pngargs");
      assert was + [png, args] == was + [png] + [args];
    }
  }

  /** The client finds the configured profile, exactly once, and the configured arguments
      after whatever arguments the link already had: so they are the ones it finds if and
      only if it had none. */
  lemma ClientReads(uri: string, d: Desync)
    requires Encodable(d) && Stamps(uri, d)
    ensures var fields := Fields(StampDesync(uri, d));
      && Named(fields, "png") == [UriComponent(d.profile)]
      && Named(fields, "pngargs") == Named(Fields(uri), "pngargs") + (if WithArgs(d) then [UriComponent(d.args)] else [])
    ensures Unescape(UriComponent(d.profile), '+') == Some(d.profile) && Unescape(UriComponent(d.args), '+') == Some(d.args)
  {
    StampKeepsLink(uri, d);
    StampsParses(uri, d);
    NoneNamedPng(Fields(uri));
    ComponentDecodes(d.profile, '+');
    ComponentDecodes(d.args, '+');
    hide UriComponent, Fields, StampDesync, Stamps, Named, Added, ParseFields, Unescape, Stamped, Body, Fragment, WithArgs;
    NamedStamped(Fields(uri), d);
  }

  // ---------- Which links are stamped ----------

  /** The first field of that name has this value. */
  ghost predicate FirstIs(vals: Values, key: string, value: string) {
    exists i :: 0 <= i < |vals| && vals[i] == (key, value) && forall j :: 0 <= j < i ==> vals[j].0 != key
  }

  lemma {:induction false} GetIsFirst(vals: Values, key: string, value: string)
    requires value != ""
    ensures Get(vals, key) == value <==> FirstIs(vals, key, value)
    decreases |vals|
  {
    if vals != [] {
      GetIsFirst(vals[1..], key, value);
      if i :| 0 <= i < |vals| && vals[i] == (key, value) && forall j :: 0 <= j < i ==> vals[j].0 != key {
        if i > 0 {
          assert vals[1..][i - 1] == vals[i] && forall j :: 0 <= j < i - 1 ==> vals[1..][j] == vals[j + 1];
        }
      }
      if vals[0].0 != key && FirstIs(vals[1..], key, value) {
        var i :| 0 <= i < |vals| - 1 && vals[1..][i] == (key, value) && forall j :: 0 <= j < i ==> vals[1..][j].0 != key;
        assert vals[i + 1] == (key, value) && forall j :: 0 <= j < i + 1 ==> j == 0 || vals[j] == vals[1..][j - 1];
      }
    }
  }

  /** A link in its parts: what precedes the query, the query and the fragment, if any. */
  ghost predicate Parts(a: string, q: string, f: string) {
    '?' !in a && '#' !in a && '#' !in q && (f != "" ==> f[0] == '#')
  }

  lemma LinkParts(a: string, q: string, f: string)
    requires Parts(a, q, f)
    ensures var uri := a + ("?" + q) + f;
      Body(uri) == a + ("?" + q) && Fragment(uri) == f && Fields(uri) == Split(q, '&') && '?' in Body(uri)
  {
    var body := a + ("?" + q);
    IndexOfSkips(body, f, '#');
    assert (body + f)[..|body|] == body && (body + f)[|body|..] == f;
    IndexOfSkips(a, "?" + q, '?');
    assert body[|a| + 1..] == q;
    hide Split, IndexOf;
    assert body[|a|] == '?';
  }

  /** What marks a link for stamping, as the client that is given it would say. */
  ghost predicate Marked(fields: seq<string>) {
    && ParseFields(fields).Some?
    && (forall i :: 0 <= i < |ParseFields(fields).value| ==> ParseFields(fields).value[i].0 != "png")
    && (FirstIs(ParseFields(fields).value, "security", "tls") || FirstIs(ParseFields(fields).value, "security", "reality"))
  }

  lemma MarkedIff(fields: seq<string>)
    ensures Marked(fields) <==>
      match ParseFields(fields)
      case None => false
      case Some(vals) => !Has(vals, "png") && Get(vals, "security") in ["tls", "reality"]
  {
    hide ParseFields, Get, FirstIs;
    if ParseFields(fields).Some? {
      GetIsFirst(ParseFields(fields).value, "security", "tls");
      GetIsFirst(ParseFields(fields).value, "security", "reality");
    }
  }

  /** A link is stamped if and only if a profile is set, its scheme is one of the two, and its
      query is well formed, has no png field, and says tls or reality first of all it says of
      security; and then the fields are put at the end of the query, the arguments only for
      the Custom profile. */
  lemma StampedIff(a: string, q: string, f: string, d: Desync)
    requires Parts(a, q, f) && Encodable(d)
    ensures var uri := a + ("?" + q) + f;
      StampDesync(uri, d) ==
        if d.profile != "" && ("vless://" <= uri || "trojan://" <= uri) && Marked(Split(q, '&')) then
          a + ("?" + q) + ("&png=" + UriComponent(d.profile)
            + (if d.profile == "Custom" && d.args != "" then "&pngargs=" + UriComponent(d.args) else "")) + f
        else uri
  {
    LinkParts(a, q, f);
    MarkedIff(Split(q, '&'));
    AddedIs(d);
    hide Body, Fragment, Fields, Split, Marked, ParseFields, Get, Has, UriComponent, Added;
  }

  lemma AddedIs(d: Desync)
    requires Encodable(d)
    ensures Added(d) == "&png=" + UriComponent(d.profile)
      + (if d.profile == "Custom" && d.args != "" then "&pngargs=" + UriComponent(d.args) else "")
  {
    hide UriComponent;
    assert "&" + ("png" + ("=" + UriComponent(d.profile))) == "&png=" + UriComponent(d.profile);
    assert "&" + ("pngargs" + ("=" + UriComponent(d.args))) == "&pngargs=" + UriComponent(d.args);
  }

  /** A link without a query is left alone. */
  lemma NoQueryIsKept(a: string, f: string, d: Desync)
    requires '?' !in a && '#' !in a && (f != "" ==> f[0] == '#') && Encodable(d)
    ensures StampDesync(a + f, d) == a + f
  {
    IndexOfSkips(a, f, '#');
    assert (a + f)[..|a|] == a;
    hide IndexOf, ParseFields, Added;
  }

  // ---------- Bytes and fields ----------

  /** A byte that needs no encoding stays; any other becomes a percent sign and its two
      upper-case hexadecimal digits. */
  lemma ByteIs(c: char)
    requires c as int < 256
    ensures UriComponent([c]) ==
      if 'a' <= c <= 'z' || 'A' <= c <= 'Z' || '0' <= c <= '9' || c in "-_.~" then [c]
      else "%" + ["0123456789ABCDEF"[c as int / 16], "0123456789ABCDEF"[c as int % 16]]
  {
    ComponentStep([c]);
    assert [c][1..] == "" && UriComponent("") == "";
    assert Encoded(c) + "" == Encoded(c);
    hide UriComponent;
  }

  function Halves(key: Option<string>, value: Option<string>): Field {
    if key.Some? && value.Some? then Pair(key.value, value.value) else Bad
  }

  /** The panel's parser: a semicolon spoils a field, an empty one is skipped, and otherwise it
      is what stands before the first equals sign and what follows it, both decoded, or bad. */
  lemma FieldIs(k: string, v: string)
    requires '=' !in k
    ensures ReadField("") == Skip
    ensures ';' in k + ("=" + v) ==> ReadField(k + ("=" + v)) == Bad
    ensures ';' !in k + ("=" + v) ==> ReadField(k + ("=" + v)) == Halves(Unescape(k, ' '), Unescape(v, ' '))
    ensures k != "" && ';' !in k ==> ReadField(k) == Halves(Unescape(k, ' '), Some(""))
  {
    var f := k + ("=" + v);
    IndexOfSkips(k, "=" + v, '=');
    assert f[..|k|] == k && f[|k| + 1..] == v;
    IndexOfSkips(k, "", '=');
    assert k + "" == k && k[..|k|] == k && Unescape("", ' ') == Some("");
    hide Unescape;
  }

  /** Decoding leaves a byte that is not a percent sign, but reads a plus sign as asked. */
  lemma UnescapePlain(c: char, rest: string, plus: char)
    requires c != '%'
    ensures Unescape([c] + rest, plus) ==
      if Unescape(rest, plus).Some? then Some([if c == '+' then plus else c] + Unescape(rest, plus).value) else None
  {
    assert ([c] + rest)[1..] == rest;
  }

  /** It undoes a percent sign with two hexadecimal digits of either case, and fails on one
      without them. */
  lemma UnescapePercent(h: char, l: char, hi: nat, lo: nat, rest: string, plus: char)
    requires hi < 16 && lo < 16
    ensures HexDigit(h, hi) && HexDigit(l, lo) ==>
      (Unescape(['%', h, l] + rest, plus) ==
        if Unescape(rest, plus).Some? then Some([(16 * hi + lo) as char] + Unescape(rest, plus).value) else None)
    ensures NoHexDigit(h) || NoHexDigit(l) ==> Unescape(['%', h, l] + rest, plus) == None
    ensures Unescape("%", plus) == None && Unescape(['%', h], plus) == None
  {
    UnhexIs(h, hi);
    UnhexIs(l, lo);
    hide Unhex, HexDigit, NoHexDigit;
    assert (['%', h, l] + rest)[3..] == rest;
  }

  lemma UnhexIs(h: char, n: nat)
    requires n < 16
    ensures HexDigit(h, n) ==> Unhex(h) == Some(n)
    ensures NoHexDigit(h) ==> Unhex(h) == None
  {
    if Unhex(h).Some? {
      assert HexDigit(h, Unhex(h).value);
    }
  }

  /** By character codes: digits from 48, capitals from 65, small letters from 97. */
  predicate HexDigit(h: char, n: nat) {
    if n < 10 then h as int == 48 + n else n < 16 && (h as int == 55 + n || h as int == 87 + n)
  }

  ghost predicate NoHexDigit(h: char) {
    forall n: nat :: !HexDigit(h, n)
  }
}

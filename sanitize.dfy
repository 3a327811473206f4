/**
 * The request-body sanitiser: `escapeHtml` replaces the six characters
 * `& < > " ' /` by their HTML entities, and `sanitizeInput` walks a parsed
 * JSON body and escapes every string leaf, leaving keys, numbers, booleans
 * and null alone.
 *
 * The walk copies an object key by key with plain assignment, so a member
 * named `__proto__` never becomes a key of the copy (the assignment goes to
 * the prototype setter instead), and it calls `obj.hasOwnProperty(key)`, so
 * an object that has its own member named `hasOwnProperty` (a string, not a
 * function) makes the walk throw a `TypeError`.
 */
module Sanitize {
  import opened Common

  // ---------------------------------------------------------------- escapeHtml

  /** The characters the escaper replaces. */
  predicate IsSpecial(c: char)
  {
    c == '&' || c == '<' || c == '>' || c == '"' || c == '\'' || c == '/'
  }

  /** A string in which none of the characters that open or close markup or attributes appears raw. */
  predicate HtmlSafe(s: string)
  {
    forall i :: 0 <= i < |s| ==> IsSpecial(s[i]) ==> s[i] == '&'
  }

  /** The replacement table of `escapeHtml`. */
  function EscapeChar(c: char): (r: string)
    ensures IsSpecial(c) ==> |r| >= 4 && r[0] == '&' && r[|r| - 1] == ';'
    ensures !IsSpecial(c) ==> r == [c]
    ensures HtmlSafe(r)
  {
    if c == '&' then "&amp;"
    else if c == '<' then "&lt;"
    else if c == '>' then "&gt;"
    else if c == '"' then "&quot;"
    else if c == '\'' then "&#x27;"
    else if c == '/' then "&#x2F;"
    else [c]
  }

  /** `text.replace(/[&<>"'/]/g, ch => map[ch])`: each character replaced on its own, left to right. */
  function EscapeHtml(s: string): string
  {
    if s == [] then [] else EscapeChar(s[0]) + EscapeHtml(s[1..])
  }

  lemma HtmlSafeConcat(a: string, b: string)
    requires HtmlSafe(a) && HtmlSafe(b)
    ensures HtmlSafe(a + b)
  {
    forall i | 0 <= i < |a + b|
      ensures IsSpecial((a + b)[i]) ==> (a + b)[i] == '&'
    {
      if i >= |a| {
        assert (a + b)[i] == b[i - |a|];
      }
    }
  }

  /** The escaped text contains no raw `< > " ' /`. */
  lemma {:induction false} EscapeHtmlSafe(s: string)
    ensures HtmlSafe(EscapeHtml(s))
  {
    if s != [] {
      EscapeHtmlSafe(s[1..]);
      HtmlSafeConcat(EscapeChar(s[0]), EscapeHtml(s[1..]));
    }
  }

  /**
   * The escaped text is never shorter than the input, and equals it exactly
   * when the input had nothing to escape.
   */
  lemma {:induction false} EscapeHtmlUnchanged(s: string)
    ensures |EscapeHtml(s)| >= |s|
    ensures EscapeHtml(s) == s <==> forall i :: 0 <= i < |s| ==> !IsSpecial(s[i])
  {
    if s != [] {
      EscapeHtmlUnchanged(s[1..]);
      if IsSpecial(s[0]) {
        assert |EscapeHtml(s)| > |s|;
      } else {
        assert EscapeHtml(s) == [s[0]] + EscapeHtml(s[1..]);
        assert s == [s[0]] + s[1..];
        assert (forall i :: 0 <= i < |s| ==> !IsSpecial(s[i])) <==> (forall i :: 0 <= i < |s[1..]| ==> !IsSpecial(s[1..][i]));
      }
    }
  }

  function IsPrefix(p: string, s: string): bool
  {
    |p| <= |s| && s[..|p|] == p
  }

  /** HTML entity decoding, restricted to the six entities the escaper produces. */
  function Unescape(s: string): string
    decreases |s|
  {
    if s == [] then []
    else if s[0] != '&' then [s[0]] + Unescape(s[1..])
    else if IsPrefix("&amp;", s) then "&" + Unescape(s[5..])
    else if IsPrefix("&lt;", s) then "<" + Unescape(s[4..])
    else if IsPrefix("&gt;", s) then ">" + Unescape(s[4..])
    else if IsPrefix("&quot;", s) then "\"" + Unescape(s[6..])
    else if IsPrefix("&#x27;", s) then "'" + Unescape(s[6..])
    else if IsPrefix("&#x2F;", s) then "/" + Unescape(s[6..])
    else [s[0]] + Unescape(s[1..])
  }

  lemma PrefixOfConcat(p: string, t: string)
    ensures IsPrefix(p, p + t) && (p + t)[|p|..] == t
  {
    assert (p + t)[..|p|] == p;
  }

  /** A string that differs from `q` at some position inside both does not start with `q`. */
  lemma NotPrefixAt(q: string, s: string, i: nat)
    requires i < |q| && i < |s| && q[i] != s[i]
    ensures !IsPrefix(q, s)
  {
    if |q| <= |s| {
      assert s[..|q|][i] == s[i];
    }
  }

  /** An escaped character, followed by any text, decodes to the character followed by the decoded text. */
  lemma UnescapeEscapeChar(c: char, t: string)
    ensures Unescape(EscapeChar(c) + t) == [c] + Unescape(t)
  {
    var e := EscapeChar(c);
    var s := e + t;
    if IsSpecial(c) {
      PrefixOfConcat(e, t);
      assert s[0] == '&' && s[1] == e[1];
      if c == '<' {
        NotPrefixAt("&amp;", s, 1);
      } else if c == '>' {
        NotPrefixAt("&amp;", s, 1);
        NotPrefixAt("&lt;", s, 1);
      } else if c == '"' {
        NotPrefixAt("&amp;", s, 1);
        NotPrefixAt("&lt;", s, 1);
        NotPrefixAt("&gt;", s, 1);
      } else if c == '\'' {
        NotPrefixAt("&amp;", s, 1);
        NotPrefixAt("&lt;", s, 1);
        NotPrefixAt("&gt;", s, 1);
        NotPrefixAt("&quot;", s, 1);
      } else if c == '/' {
        NotPrefixAt("&amp;", s, 1);
        NotPrefixAt("&lt;", s, 1);
        NotPrefixAt("&gt;", s, 1);
        NotPrefixAt("&quot;", s, 1);
        assert s[4] == e[4];
        NotPrefixAt("&#x27;", s, 4);
      }
    } else {
      assert s[0] == c && s[1..] == t;
    }
  }

  /** Decoding the escaped text gives back the original: the escaper loses nothing. */
  lemma {:induction false} UnescapeEscapeHtml(s: string)
    ensures Unescape(EscapeHtml(s)) == s
  {
    if s != [] {
      UnescapeEscapeChar(s[0], EscapeHtml(s[1..]));
      UnescapeEscapeHtml(s[1..]);
      assert s == [s[0]] + s[1..];
    }
  }

  /** Escaping is not idempotent: an ampersand is escaped again on every pass. */
  lemma EscapeHtmlNotIdempotent()
    ensures EscapeHtml("&") == "&amp;"
    ensures EscapeHtml(EscapeHtml("&")) == "&amp;amp;"
  {
    assert EscapeHtml("&") == "&amp;" by {
      assert "&"[1..] == [];
    }
    var s := "&amp;";
    assert s[1..] == "amp;" && s[1..][1..] == "mp;" && s[1..][1..][1..] == "p;" && s[1..][1..][1..][1..] == ";";
  }

  // ---------------------------------------------------------------- JSON values

  /** A parsed request body; numbers are integers here. */
  datatype Json =
    | JNull
    | JBool(b: bool)
    | JNumber(n: int)
    | JString(s: string)
    | JArray(items: seq<Json>)
    | JObject(members: seq<Member>)

  /** One own property of an object, in property order. */
  datatype Member = Member(key: string, value: Json)

  /** The walk throws `TypeError: obj.hasOwnProperty is not a function`. */
  datatype SanitizeError = TypeError

  const ProtoKey: string := "__proto__"
  const HasOwnPropertyKey: string := "hasOwnProperty"

  predicate OwnsKey(members: seq<Member>, key: string)
  {
    exists k :: 0 <= k < |members| && members[k].key == key
  }

  /** `sanitizeInput(obj)`, as it behaves on a value parsed from JSON. */
  function Sanitized(j: Json): Result<Json, SanitizeError>
  {
    match j
    case JString(s) => Ok(JString(EscapeHtml(s)))
    case JArray(items) =>
      (match SanitizedItems(items)
       case Err(e) => Err(e)
       case Ok(xs) => Ok(JArray(xs)))
    case JObject(members) =>
      if OwnsKey(members, HasOwnPropertyKey) then Err(TypeError)
      else
        (match SanitizedMembers(members)
         case Err(e) => Err(e)
         case Ok(ms) => Ok(JObject(ms)))
    case _ => Ok(j)
  }

  /** `items.map(sanitizeInput)`. */
  function SanitizedItems(items: seq<Json>): Result<seq<Json>, SanitizeError>
  {
    if items == [] then Ok([])
    else
      match SanitizedItems(items[..|items| - 1])
      case Err(e) => Err(e)
      case Ok(done) =>
        match Sanitized(items[|items| - 1])
        case Err(e) => Err(e)
        case Ok(x) => Ok(done + [x])
  }

  /** The copying loop over an object's own members: each value is sanitised, and `__proto__` is not copied. */
  function SanitizedMembers(members: seq<Member>): Result<seq<Member>, SanitizeError>
  {
    if members == [] then Ok([])
    else
      match SanitizedMembers(members[..|members| - 1])
      case Err(e) => Err(e)
      case Ok(done) =>
        var m := members[|members| - 1];
        match Sanitized(m.value)
        case Err(e) => Err(e)
        case Ok(v) => Ok(if m.key == ProtoKey then done else done + [Member(m.key, v)])
  }

  // ---------------------------------------------------------------- reference definitions

  /** Every string leaf mapped through `f`, every `__proto__` member dropped; keys and other leaves kept. */
  function Transform(j: Json, f: string -> string): Json
  {
    match j
    case JString(s) => JString(f(s))
    case JArray(items) => JArray(TransformItems(items, f))
    case JObject(members) => JObject(TransformMembers(members, f))
    case _ => j
  }

  function TransformItems(items: seq<Json>, f: string -> string): (r: seq<Json>)
    ensures |r| == |items|
  {
    if items == [] then [] else TransformItems(items[..|items| - 1], f) + [Transform(items[|items| - 1], f)]
  }

  function TransformMembers(members: seq<Member>, f: string -> string): seq<Member>
  {
    if members == [] then []
    else
      var m := members[|members| - 1];
      var done := TransformMembers(members[..|members| - 1], f);
      if m.key == ProtoKey then done else done + [Member(m.key, Transform(m.value, f))]
  }

  /** Some object within `j` has an own member named `hasOwnProperty`. */
  predicate Throws(j: Json)
  {
    match j
    case JArray(items) => ItemsThrow(items)
    case JObject(members) => OwnsKey(members, HasOwnPropertyKey) || MembersThrow(members)
    case _ => false
  }

  predicate ItemsThrow(items: seq<Json>)
  {
    items != [] && (ItemsThrow(items[..|items| - 1]) || Throws(items[|items| - 1]))
  }

  predicate MembersThrow(members: seq<Member>)
  {
    members != [] && (MembersThrow(members[..|members| - 1]) || Throws(members[|members| - 1].value))
  }

  /** Every string leaf of `j` is HTML-safe. */
  predicate Safe(j: Json)
  {
    match j
    case JString(s) => HtmlSafe(s)
    case JArray(items) => SafeItems(items)
    case JObject(members) => SafeMembers(members)
    case _ => true
  }

  predicate SafeItems(items: seq<Json>)
  {
    items != [] ==> SafeItems(items[..|items| - 1]) && Safe(items[|items| - 1])
  }

  predicate SafeMembers(members: seq<Member>)
  {
    members != [] ==> SafeMembers(members[..|members| - 1]) && Safe(members[|members| - 1].value)
  }

  function Same(s: string): string
  {
    s
  }

  // ---------------------------------------------------------------- the walk, against the references

  /**
   * The walk fails exactly when some object in the value owns a
   * `hasOwnProperty` member; otherwise it escapes every string leaf and
   * drops every `__proto__` member, keeping everything else in place.
   */
  lemma {:induction false} SanitizedIsTransform(j: Json)
    ensures Sanitized(j) == if Throws(j) then Err(TypeError) else Ok(Transform(j, EscapeHtml))
    decreases j, 1
  {
    match j
    case JArray(items) => SanitizedItemsIsTransform(items);
    case JObject(members) => SanitizedMembersIsTransform(members);
    case _ =>
  }

  lemma {:induction false} SanitizedItemsIsTransform(items: seq<Json>)
    ensures SanitizedItems(items) == if ItemsThrow(items) then Err(TypeError) else Ok(TransformItems(items, EscapeHtml))
    decreases items, 0
  {
    if items != [] {
      SanitizedItemsIsTransform(items[..|items| - 1]);
      SanitizedIsTransform(items[|items| - 1]);
    }
  }

  lemma {:induction false} SanitizedMembersIsTransform(members: seq<Member>)
    ensures SanitizedMembers(members) == if MembersThrow(members) then Err(TypeError) else Ok(TransformMembers(members, EscapeHtml))
    decreases members, 0
  {
    if members != [] {
      SanitizedMembersIsTransform(members[..|members| - 1]);
      SanitizedIsTransform(members[|members| - 1].value);
    }
  }

  /** Transforming twice is transforming once by the composed map (a transformed value has no `__proto__` left to drop). */
  lemma {:induction false} TransformCompose(j: Json, f: string -> string, g: string -> string, h: string -> string)
    requires forall s :: h(s) == g(f(s))
    ensures Transform(Transform(j, f), g) == Transform(j, h)
    decreases j, 1
  {
    match j
    case JArray(items) => TransformItemsCompose(items, f, g, h);
    case JObject(members) => TransformMembersCompose(members, f, g, h);
    case _ =>
  }

  lemma {:induction false} TransformItemsCompose(items: seq<Json>, f: string -> string, g: string -> string, h: string -> string)
    requires forall s :: h(s) == g(f(s))
    ensures TransformItems(TransformItems(items, f), g) == TransformItems(items, h)
    decreases items, 0
  {
    if items != [] {
      var init := items[..|items| - 1];
      var once := TransformItems(items, f);
      TransformItemsCompose(init, f, g, h);
      TransformCompose(items[|items| - 1], f, g, h);
      assert once[..|once| - 1] == TransformItems(init, f);
    }
  }

  lemma {:induction false} TransformMembersCompose(members: seq<Member>, f: string -> string, g: string -> string, h: string -> string)
    requires forall s :: h(s) == g(f(s))
    ensures TransformMembers(TransformMembers(members, f), g) == TransformMembers(members, h)
    decreases members, 0
  {
    if members != [] {
      var init := members[..|members| - 1];
      var m := members[|members| - 1];
      TransformMembersCompose(init, f, g, h);
      if m.key != ProtoKey {
        var once := TransformMembers(members, f);
        TransformCompose(m.value, f, g, h);
        assert once[..|once| - 1] == TransformMembers(init, f);
      }
    }
  }

  /** A transform whose string map always yields HTML-safe text leaves every string leaf HTML-safe. */
  lemma {:induction false} TransformSafe(j: Json, f: string -> string)
    requires forall s :: HtmlSafe(f(s))
    ensures Safe(Transform(j, f))
    decreases j, 1
  {
    match j
    case JArray(items) => TransformItemsSafe(items, f);
    case JObject(members) => TransformMembersSafe(members, f);
    case _ =>
  }

  lemma {:induction false} TransformItemsSafe(items: seq<Json>, f: string -> string)
    requires forall s :: HtmlSafe(f(s))
    ensures SafeItems(TransformItems(items, f))
    decreases items, 0
  {
    if items != [] {
      var r := TransformItems(items, f);
      TransformItemsSafe(items[..|items| - 1], f);
      TransformSafe(items[|items| - 1], f);
      assert r[..|r| - 1] == TransformItems(items[..|items| - 1], f);
    }
  }

  lemma {:induction false} TransformMembersSafe(members: seq<Member>, f: string -> string)
    requires forall s :: HtmlSafe(f(s))
    ensures SafeMembers(TransformMembers(members, f))
    decreases members, 0
  {
    if members != [] {
      var m := members[|members| - 1];
      TransformMembersSafe(members[..|members| - 1], f);
      if m.key != ProtoKey {
        var r := TransformMembers(members, f);
        TransformSafe(m.value, f);
        assert r[..|r| - 1] == TransformMembers(members[..|members| - 1], f);
      }
    }
  }

  /**
   * What the walk returns has no raw markup character in any string, and
   * decoding its strings gives back the input with only its `__proto__`
   * members missing.
   */
  lemma SanitizedRoundTrip(j: Json)
    requires Sanitized(j).Ok?
    ensures Safe(Sanitized(j).value)
    ensures Transform(Sanitized(j).value, Unescape) == Transform(j, Same)
  {
    SanitizedIsTransform(j);
    forall s ensures HtmlSafe(EscapeHtml(s)) {
      EscapeHtmlSafe(s);
    }
    TransformSafe(j, EscapeHtml);
    forall s ensures Same(s) == Unescape(EscapeHtml(s)) {
      UnescapeEscapeHtml(s);
    }
    TransformCompose(j, EscapeHtml, Unescape, Same);
  }

  /** Member names are not escaped; only the string values are. */
  lemma KeysNotEscaped()
    ensures Sanitized(JObject([Member("<b>", JString("<b>"))])) == Ok(JObject([Member("<b>", JString("&lt;b&gt;"))]))
  {
    var s := "<b>";
    assert s[1..] == "b>" && s[1..][1..] == ">" && s[1..][1..][1..] == [];
    assert EscapeHtml("<b>") == "&lt;b&gt;";
    var ms := [Member("<b>", JString("<b>"))];
    assert ms[..0] == [];
    assert !OwnsKey(ms, HasOwnPropertyKey);
    assert ms[..|ms| - 1] == [];
    assert SanitizedMembers(ms[..|ms| - 1]) == Ok([]);
    assert ms[|ms| - 1].key != ProtoKey;
    assert Sanitized(ms[|ms| - 1].value) == Ok(JString("&lt;b&gt;"));
    assert [] + [Member("<b>", JString("&lt;b&gt;"))] == [Member("<b>", JString("&lt;b&gt;"))];
  }

  /** A `__proto__` member is not copied. */
  lemma ProtoMemberDropped()
    ensures Sanitized(JObject([Member(ProtoKey, JString("x")), Member("a", JNumber(1))])) == Ok(JObject([Member("a", JNumber(1))]))
  {
    var ms := [Member(ProtoKey, JString("x")), Member("a", JNumber(1))];
    assert ms[..1] == [Member(ProtoKey, JString("x"))] && ms[..1][..0] == [];
    assert ms[0].key != HasOwnPropertyKey && ms[1].key != HasOwnPropertyKey;
    assert !OwnsKey(ms, HasOwnPropertyKey);
    assert ms[..|ms| - 1] == ms[..1];
    assert ms[..1][..|ms[..1]| - 1] == [];
    assert ms[..1][0].key == ProtoKey;
    assert SanitizedMembers(ms[..1]) == Ok([]);
    assert ms[|ms| - 1] == Member("a", JNumber(1));
    assert "a" != ProtoKey;
    assert Sanitized(JNumber(1)) == Ok(JNumber(1));
    assert [] + [Member("a", JNumber(1))] == [Member("a", JNumber(1))];
  }

  /** A `hasOwnProperty` member makes the walk throw, whatever else the object holds. */
  lemma HasOwnPropertyMemberThrows(members: seq<Member>, k: nat)
    requires k < |members| && members[k].key == HasOwnPropertyKey
    ensures Sanitized(JObject(members)) == Err(TypeError)
    ensures Throws(JObject(members))
  {
  }

  // ---------------------------------------------------------------- the walk, as the source runs it

  /** `sanitizeInput`: strings escaped, arrays mapped, objects copied member by member, anything else returned as it is. */
  method SanitizeInput(j: Json) returns (r: Result<Json, SanitizeError>)
    ensures r == Sanitized(j)
  {
    match j {
      case JString(s) => r := Ok(JString(EscapeHtml(s)));
      case JArray(items) =>
        r := match SanitizedItems(items)
          case Err(e) => Err(e)
          case Ok(xs) => Ok(JArray(xs));
      case JObject(members) => r := SanitizeObject(members);
      case _ => r := Ok(j);
    }
  }

  /**
   * The object branch: a fresh object, then one pass over the own members;
   * each pass calls `obj.hasOwnProperty` and assigns the sanitised value.
   */
  method SanitizeObject(members: seq<Member>) returns (r: Result<Json, SanitizeError>)
    ensures r == Sanitized(JObject(members))
  {
    var sanitized: seq<Member> := [];
    var i := 0;
    while i < |members|
      invariant 0 <= i <= |members|
      invariant SanitizedMembers(members[..i]) == Ok(sanitized)
      invariant i > 0 ==> !OwnsKey(members, HasOwnPropertyKey)
    {
      if OwnsKey(members, HasOwnPropertyKey) {
        return Err(TypeError);
      }
      assert members[..i + 1][..i] == members[..i];
      var m := members[i];
      var v := Sanitized(m.value);
      if v.Err? {
        assert SanitizedMembers(members[..i + 1]).Err?;
        PrefixErrorSticks(members, i + 1);
        return Err(v.error);
      }
      if m.key != ProtoKey {
        sanitized := sanitized + [Member(m.key, v.value)];
      }
      i := i + 1;
    }
    assert members[..i] == members;
    return Ok(JObject(sanitized));
  }

  /** Once a prefix of the members fails, the whole copy fails the same way. */
  lemma {:induction false} PrefixErrorSticks(members: seq<Member>, n: nat)
    requires n <= |members| && SanitizedMembers(members[..n]).Err?
    ensures SanitizedMembers(members) == SanitizedMembers(members[..n])
    decreases |members| - n
  {
    if n < |members| {
      assert members[..n + 1][..n] == members[..n];
      PrefixErrorSticks(members, n + 1);
    } else {
      assert members[..n] == members;
    }
  }

  /** JavaScript truthiness of a parsed body. */
  predicate JsTruthy(j: Json)
  {
    match j
    case JNull => false
    case JBool(b) => b
    case JNumber(n) => n != 0
    case JString(s) => s != ""
    case _ => true
  }

  /** The request whose body the middleware rewrites. */
  class IncomingRequest {
    var body: Option<Json>

    constructor (body: Option<Json>)
      ensures this.body == body
    {
      this.body := body;
    }

    /** `sanitizeMiddleware`: a truthy body is replaced by its sanitised copy; a throw leaves it as it was. */
    method SanitizeMiddleware() returns (r: Result<(), SanitizeError>)
      modifies this
      ensures old(body).None? || !JsTruthy(old(body).value) ==> r == Ok(()) && body == old(body)
      ensures old(body).Some? && JsTruthy(old(body).value) ==>
        match Sanitized(old(body).value)
        case Err(e) => r == Err(e) && body == old(body)
        case Ok(clean) => r == Ok(()) && body == Some(clean)
    {
      if body.Some? && JsTruthy(body.value) {
        var clean := SanitizeInput(body.value);
        if clean.Err? {
          return Err(clean.error);
        }
        body := Some(clean.value);
      }
      return Ok(());
    }
  }
}

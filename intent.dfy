/**
 * `parseGeminiResponse`: cleans the language model's reply down to the JSON
 * object it holds, hands it to `JSON.parse`, and checks the intent payload.
 * Cleaning is a fixed pipeline of string rewrites, each modelled by a
 * scanner that reproduces the JavaScript call it stands for; `JSON.parse`
 * itself is the parameter `parse`.
 */
module IntentPayload {
  import opened Wrappers
  import opened Text

  // ---------------------------------------------------------------------
  // Cleaning

  /** `^` in multiline mode: the start of the text or just after a line terminator. */
  predicate AtLineStart(s: string, i: nat)
    requires i <= |s|
  {
    i == 0 || IsLineTerminator(s[i - 1])
  }

  /** `$` in multiline mode: the end of the text or just before a line terminator. */
  predicate AtLineEnd(s: string, i: nat)
    requires i <= |s|
  {
    i == |s| || IsLineTerminator(s[i])
  }

  /**
   * `s.replace(/^```json\s*|```$/gm, "")` applied to `s[i..]`: an opening
   * fence at a line start (with the white space after it, line breaks
   * included) and a closing fence at a line end are dropped; the scan goes on
   * after each removed match.
   */
  function StripFencesFrom(s: string, i: nat): string
    requires i <= |s|
    decreases |s| - i
  {
    if i == |s| then []
    else if AtLineStart(s, i) && HasAt(s, i, "```json") then StripFencesFrom(s, SpacesEnd(s, i + 7))
    else if HasAt(s, i, "```") && AtLineEnd(s, i + 3) then StripFencesFrom(s, i + 3)
    else [s[i]] + StripFencesFrom(s, i + 1)
  }

  /** `s.replace(/```/g, "")`: every fence, leftmost first, is dropped. */
  function RemoveFences(s: string): string
    decreases |s|
  {
    match IndexOf(s, "```", 0)
    case None => s
    case Some(m) => s[..m] + RemoveFences(s[m + 3..])
  }

  /** End of the greedy `[^"]*` starting at `i`. */
  function QuoteFreeEnd(s: string, i: nat): (e: nat)
    requires i <= |s|
    ensures i <= e <= |s|
    ensures forall k :: i <= k < e ==> s[k] != '"'
    ensures e == |s| || s[e] == '"'
    decreases |s| - i
  {
    if i < |s| && s[i] != '"' then QuoteFreeEnd(s, i + 1) else i
  }

  /**
   * `NAME\("([^"]+)"\)` tried at `i`: the end of the captured text. Giving
   * back characters of `[^"]+` leaves a non-quote where `"` must follow, so the
   * greedy attempt is the only one that can succeed.
   */
  function CallMatchAt(s: string, i: nat, name: string): (r: Option<nat>)
    requires i <= |s|
    ensures r.Some? ==> HasAt(s, i, name + "(\"") && i + |name| + 2 < r.value && r.value + 2 <= |s|
    ensures r.Some? ==> HasAt(s, r.value, "\")")
  {
    if !HasAt(s, i, name + "(\"") then None
    else
      var b := i + |name| + 2;
      var e := QuoteFreeEnd(s, b);
      if e > b && HasAt(s, e, "\")") then Some(e) else None
  }

  /** The leftmost position at `p` or later where the call pattern matches. */
  function CallSearch(s: string, name: string, p: nat): (r: Option<nat>)
    requires p <= |s|
    ensures r.Some? ==> p <= r.value <= |s| && CallMatchAt(s, r.value, name).Some?
    ensures r.Some? ==> forall q :: p <= q < r.value ==> CallMatchAt(s, q, name).None?
    ensures r.None? ==> forall q :: p <= q <= |s| ==> CallMatchAt(s, q, name).None?
    decreases |s| - p
  {
    if CallMatchAt(s, p, name).Some? then Some(p)
    else if p == |s| then None
    else CallSearch(s, name, p + 1)
  }

  /**
   * The global replace of `NAME\("([^"]+)"\)` by `"$1"` from position `p`
   * on: the text up to the leftmost call, its argument in quotes, and the
   * scan resumed after the call.
   */
  function RewriteFrom(s: string, name: string, p: nat): (r: string)
    requires p <= |s|
    ensures !Contains(s, "```") ==> !Contains(r, "```")
    ensures p < |s| && s[|s| - 1] != ')' ==> |r| > 0 && r[|r| - 1] == s[|s| - 1]
    decreases |s| - p
  {
    match CallSearch(s, name, p)
    case None =>
      SuffixKeepsNoFence(s, p);
      s[p..]
    case Some(i) =>
      var e := CallMatchAt(s, i, name).value;
      var rest := RewriteFrom(s, name, e + 2);
      QuotedKeepsNoFence(s, p, i, i + |name| + 2, e, rest);
      QuotedEndsAsRest(s[p..i], s[i + |name| + 2..e], rest);
      s[p..i] + "\"" + s[i + |name| + 2..e] + "\"" + rest
  }

  /** `s.replace(/NAME\("([^"]+)"\)/g, '"$1"')`: each call is replaced by its quoted argument. */
  function RewriteCalls(s: string, name: string): string {
    RewriteFrom(s, name, 0)
  }

  /** The first `{` up to the last `}`, when the first comes before the last; otherwise the text unchanged. */
  function BraceSpan(t: string): string {
    var a := IndexOf(t, "{", 0);
    var z := LastIndexOf(t, '}');
    if a.Some? && z.Some? && z.value > a.value then t[a.value..z.value + 1] else t
  }

  /** The text after the two fence-removal passes and their `trim()`s. */
  function Fenceless(responseText: string): string {
    Trim(RemoveFences(Trim(StripFencesFrom(responseText, 0))))
  }

  /** The brace cut and the two call rewrites, applied to the text without fences. */
  function RewritePayload(t: string): string {
    RewriteCalls(RewriteCalls(BraceSpan(t), "ISODate"), "ObjectId")
  }

  /** The text `JSON.parse` receives. */
  function CleanPayload(responseText: string): string {
    RewritePayload(Fenceless(responseText))
  }

  // ---------------------------------------------------------------------
  // The parsed value and its checks

  datatype Json =
    | JNull
    | JBool(b: bool)
    | JNumber(n: real)
    | JString(str: string)
    | JArray(items: seq<Json>)
    | JObject(fields: map<string, Json>)

  /** The ways `parseGeminiResponse` throws. */
  datatype PayloadError =
    | SyntaxError   // `JSON.parse` rejects the cleaned text
    | NullPayload   // the text is `null`: reading `parsed.intent` is a TypeError
    | MissingIntent // "Missing intent field in AI response"

  /** Property access `v.key`; `None` is `undefined`. Only objects carry the payload's keys. */
  function Get(v: Json, key: string): (r: Option<Json>)
    ensures r.Some? <==> v.JObject? && key in v.fields
  {
    if v.JObject? && key in v.fields then Some(v.fields[key]) else None
  }

  /** JavaScript truthiness; `undefined` is falsy. */
  predicate Truthy(v: Option<Json>) {
    match v
    case None => false
    case Some(JNull) => false
    case Some(JBool(b)) => b
    case Some(JNumber(n)) => n != 0.0
    case Some(JString(str)) => str != []
    case Some(JArray(_)) => true
    case Some(JObject(_)) => true
  }

  const EntityKeys: seq<string> := [
    "specificAccount", "bankFilter", "categoryFilter", "timeFilter",
    "amountFilter", "searchTerm", "typeFilter", "statusFilter"
  ]

  /** The object put in place of missing entities. */
  function DefaultEntities(): (d: Json)
    ensures d.JObject? && d.fields.Keys == set k | k in EntityKeys
    ensures forall k :: k in d.fields ==> d.fields[k] == JNull
  {
    JObject(map[
      "specificAccount" := JNull, "bankFilter" := JNull, "categoryFilter" := JNull,
      "timeFilter" := JNull, "amountFilter" := JNull, "searchTerm" := JNull,
      "typeFilter" := JNull, "statusFilter" := JNull])
  }

  /**
   * The checks after `JSON.parse`: a falsy `intent` throws, a falsy
   * `entities` becomes the all-null object, and everything else is returned
   * as parsed.
   */
  function Validate(parsed: Option<Json>): (r: Result<Json, PayloadError>)
    ensures parsed.None? ==> r == Failure(SyntaxError)
    ensures parsed == Some(JNull) ==> r == Failure(NullPayload)
    ensures parsed.Some? && parsed.value != JNull ==>
      (r.Success? <==> Truthy(Get(parsed.value, "intent")))
    ensures r.Failure? && parsed.Some? && parsed.value != JNull ==> r.error == MissingIntent
    ensures r.Success? ==> r.value.JObject? && parsed.Some? && parsed.value.JObject?
    ensures r.Success? ==> Truthy(Get(r.value, "intent")) && Truthy(Get(r.value, "entities"))
    ensures r.Success? ==> r.value.fields.Keys == parsed.value.fields.Keys + {"entities"}
    ensures r.Success? ==> forall k :: k in r.value.fields && k != "entities" ==> r.value.fields[k] == parsed.value.fields[k]
    ensures r.Success? ==>
      Get(r.value, "entities") == if Truthy(Get(parsed.value, "entities")) then Get(parsed.value, "entities") else Some(DefaultEntities())
  {
    match parsed
    case None => Failure(SyntaxError)
    case Some(v) =>
      if v == JNull then Failure(NullPayload)
      else if !Truthy(Get(v, "intent")) then Failure(MissingIntent)
      else if Truthy(Get(v, "entities")) then Success(v)
      else Success(JObject(v.fields["entities" := DefaultEntities()]))
  }

  /**
   * The cleaning half of `parseGeminiResponse`: the working text is
   * reassigned by each pass, fences first, then the brace cut, then the
   * two call rewrites.
   */
  method CleanResponse(responseText: string) returns (cleaned: string)
    ensures cleaned == CleanPayload(responseText)
  {
    cleaned := Trim(StripFencesFrom(responseText, 0));
    cleaned := Trim(RemoveFences(cleaned));
    assert cleaned == Fenceless(responseText);
    var startIndex := IndexOf(cleaned, "{", 0);
    var lastIndex := LastIndexOf(cleaned, '}');
    if startIndex.Some? && lastIndex.Some? && lastIndex.value > startIndex.value {
      cleaned := cleaned[startIndex.value..lastIndex.value + 1];
    }
    assert cleaned == BraceSpan(Fenceless(responseText));
    cleaned := RewriteCalls(cleaned, "ISODate");
    cleaned := RewriteCalls(cleaned, "ObjectId");
  }

  /**
   * `parseGeminiResponse`, step by step: the cleaned text is parsed,
   * checked, and its `entities` patched.
   */
  method ParseGeminiResponse(responseText: string, parse: string -> Option<Json>)
    returns (r: Result<Json, PayloadError>)
    ensures r == Validate(parse(CleanPayload(responseText)))
  {
    var cleaned := CleanResponse(responseText);
    var parsed := parse(cleaned);
    if parsed.None? {
      return Failure(SyntaxError);
    }
    var payload := parsed.value;
    if payload == JNull {
      return Failure(NullPayload);
    }
    if !Truthy(Get(payload, "intent")) {
      return Failure(MissingIntent);
    }
    if !Truthy(Get(payload, "entities")) {
      payload := JObject(payload.fields["entities" := DefaultEntities()]);
    }
    return Success(payload);
  }

  // ---------------------------------------------------------------------
  // Properties of the cleaning

  /** Fence removal leaves no fence: a run of backticks keeps fewer than three. */
  lemma {:induction false} RemoveFencesLeavesNoFence(s: string)
    ensures !Contains(RemoveFences(s), "```")
    decreases |s|
  {
    match IndexOf(s, "```", 0)
    case None =>
    case Some(m) =>
      var rest := RemoveFences(s[m + 3..]);
      assert RemoveFences(s) == s[..m] + rest;
      assert !Contains(rest, "```") by {
        RemoveFencesLeavesNoFence(s[m + 3..]);
      }
      if m == 0 {
        assert s[..m] + rest == rest;
      } else {
        var c := s[m - 1];
        assert c != '`' by {
          assert !HasAt(s, m - 1, "```");
          assert s[m..m + 3] == "```";
          assert s[m] == '`' && s[m + 1] == '`' by {
            assert s[m..m + 3][0] == '`' && s[m..m + 3][1] == '`';
          }
          assert s[m - 1..m + 2] == [c, s[m], s[m + 1]];
        }
        assert !Contains(s[..m - 1], "```") by {
          NotContainsPrefix(s, m - 1, "```");
        }
        assert !Contains(s[..m - 1] + [c] + rest, "```") by {
          ContainsAcross(s[..m - 1], c, rest, "```");
        }
        assert s[..m] == s[..m - 1] + [c];
      }
  }

  /** Regrouping the pieces of a rewritten call. */
  lemma AppendRegroup(a: string, b: string, c: string, q: char)
    ensures a + [q] + b + [q] + c == a + [q] + (b + [q] + c)
  {
  }

  /** A rewritten call followed by a non-empty rest ends as the rest does. */
  lemma QuotedEndsAsRest(a: string, b: string, rest: string)
    ensures var r := a + "\"" + b + "\"" + rest;
      |r| > 0 && (|rest| > 0 ==> r[|r| - 1] == rest[|rest| - 1])
  {
  }

  /** A suffix of a text without a fence has none. */
  lemma SuffixKeepsNoFence(s: string, p: nat)
    requires p <= |s|
    ensures !Contains(s, "```") ==> !Contains(s[p..], "```")
  {
    if !Contains(s, "```") {
      NotContainsSlice(s, p, |s|, "```");
      assert s[p..|s|] == s[p..];
    }
  }

  /**
   * One rewritten call creates no fence: the text before the call and the
   * argument are slices of a text without one, and the quotes put around the
   * argument break every run of backticks.
   */
  lemma QuotedKeepsNoFence(s: string, p: nat, i: nat, b: nat, e: nat, rest: string)
    requires p <= i <= b <= e <= |s|
    ensures !Contains(s, "```") && !Contains(rest, "```")
      ==> !Contains(s[p..i] + "\"" + s[b..e] + "\"" + rest, "```")
  {
    if !Contains(s, "```") && !Contains(rest, "```") {
      var tail := s[b..e] + ['"'] + rest;
      assert !Contains(tail, "```") by {
        NotContainsSlice(s, b, e, "```");
        ContainsAcross(s[b..e], '"', rest, "```");
      }
      assert !Contains(s[p..i] + ['"'] + tail, "```") by {
        NotContainsSlice(s, p, i, "```");
        ContainsAcross(s[p..i], '"', tail, "```");
      }
      AppendRegroup(s[p..i], s[b..e], rest, '"');
    }
  }

  /** The brace cut and the rewrites create no fence. */
  lemma RewritePayloadKeepsNoFence(t: string)
    requires !Contains(t, "```")
    ensures !Contains(RewritePayload(t), "```")
  {
    var a := IndexOf(t, "{", 0);
    var z := LastIndexOf(t, '}');
    var span := BraceSpan(t);
    assert !Contains(span, "```") by {
      if a.Some? && z.Some? && z.value > a.value {
        NotContainsSlice(t, a.value, z.value + 1, "```");
      }
    }
    var once := RewriteFrom(span, "ISODate", 0);
    assert !Contains(once, "```");
    assert RewritePayload(t) == RewriteFrom(once, "ObjectId", 0);
  }

  /** The text handed to `JSON.parse` contains no "```". */
  lemma CleanPayloadHasNoFence(responseText: string)
    ensures !Contains(CleanPayload(responseText), "```")
  {
    var t1 := Trim(StripFencesFrom(responseText, 0));
    assert !Contains(Fenceless(responseText), "```") by {
      RemoveFencesLeavesNoFence(t1);
      NotContainsTrim(RemoveFences(t1), "```");
    }
    RewritePayloadKeepsNoFence(Fenceless(responseText));
  }

  /** A text that does not start with the call's name keeps its first character. */
  lemma RewriteKeepsFirst(t: string, name: string)
    requires |t| > 0 && |name| > 0 && t[0] != name[0]
    ensures |RewriteCalls(t, name)| > 0 && RewriteCalls(t, name)[0] == t[0]
  {
    match CallSearch(t, name, 0)
    case None =>
    case Some(i) =>
      assert t[i] == (name + "(\"")[0];
  }



  /** `BraceSpan` cuts from the first `{` to the last `}` when the first comes before the last. */
  lemma BraceSpanCuts(t: string, a: nat, z: nat)
    requires a < z < |t| && t[a] == '{' && t[z] == '}'
    requires forall q :: 0 <= q < a ==> t[q] != '{'
    requires forall q :: z < q < |t| ==> t[q] != '}'
    ensures BraceSpan(t) == t[a..z + 1]
    ensures var span := BraceSpan(t); |span| >= 2 && span[0] == '{' && span[|span| - 1] == '}'
  {
    forall q | 0 <= q < a ensures !HasAt(t, q, "{") {
      assert t[q..q + 1] == [t[q]];
    }
    assert t[a..a + 1] == "{";
    IndexOfFinds(t, "{", 0, a);
    LastIndexOfFinds(t, '}', z);
  }

  /** Both rewrites keep a leading `{` and a trailing `}`. */
  lemma RewritesKeepBraces(span: string)
    requires |span| >= 2 && span[0] == '{' && span[|span| - 1] == '}'
    ensures var r := RewriteCalls(RewriteCalls(span, "ISODate"), "ObjectId");
      |r| >= 1 && r[0] == '{' && r[|r| - 1] == '}'
  {
    RewriteKeepsFirst(span, "ISODate");
    var once := RewriteCalls(span, "ISODate");
    RewriteKeepsFirst(once, "ObjectId");
  }

  /** With a `{` before a later `}`, the payload is the rewritten span between the first and the last, still braced. */
  lemma RewritePayloadOfSpan(t: string, a: nat, z: nat)
    requires a < z < |t| && t[a] == '{' && t[z] == '}'
    requires forall q :: 0 <= q < a ==> t[q] != '{'
    requires forall q :: z < q < |t| ==> t[q] != '}'
    ensures RewritePayload(t) == RewriteCalls(RewriteCalls(t[a..z + 1], "ISODate"), "ObjectId")
    ensures var r := RewritePayload(t); |r| >= 1 && r[0] == '{' && r[|r| - 1] == '}'
  {
    BraceSpanCuts(t, a, z);
    RewritesKeepBraces(BraceSpan(t));
  }

  /**
   * When a `{` comes before a later `}`, the text handed to `JSON.parse` is
   * the span from the first `{` to the last `}` with its calls rewritten, and
   * it still starts with `{` and ends with `}`.
   */
  lemma CleanPayloadIsBraceSpan(responseText: string, a: nat, z: nat)
    requires var t := Fenceless(responseText);
      && a < z < |t| && t[a] == '{' && t[z] == '}'
      && (forall q :: 0 <= q < a ==> t[q] != '{')
      && (forall q :: z < q < |t| ==> t[q] != '}')
    ensures var t := Fenceless(responseText);
      CleanPayload(responseText) == RewriteCalls(RewriteCalls(t[a..z + 1], "ISODate"), "ObjectId")
    ensures var r := CleanPayload(responseText);
      |r| >= 1 && r[0] == '{' && r[|r| - 1] == '}'
  {
    RewritePayloadOfSpan(Fenceless(responseText), a, z);
  }

  /** A text without `NAME("` is left unchanged by the rewrite. */
  lemma RewriteWithoutCall(s: string, name: string)
    requires forall q :: 0 <= q <= |s| ==> !HasAt(s, q, name + "(\"")
    ensures RewriteCalls(s, name) == s
  {
    CallSearchFindsNothing(s, name, 0);
  }

  lemma {:induction false} CallSearchFindsNothing(s: string, name: string, p: nat)
    requires p <= |s|
    requires forall q :: p <= q <= |s| ==> CallMatchAt(s, q, name).None?
    ensures CallSearch(s, name, p).None?
    decreases |s| - p
  {
    if p < |s| {
      CallSearchFindsNothing(s, name, p + 1);
    }
  }

  /** `NAME("x")` on its own becomes `"x"`. */
  lemma RewriteOneCall(s: string, name: string, x: string)
    requires |x| > 0 && forall k :: 0 <= k < |x| ==> x[k] != '"'
    requires s == name + "(\"" + x + "\")"
    ensures RewriteCalls(s, name) == "\"" + x + "\""
  {
    var b := |name| + 2;
    var e := b + |x|;
    assert CallMatchAt(s, 0, name) == Some(e) by {
      assert s[..b] == name + "(\"";
      assert s[b..e] == x;
      QuoteFreeEndIs(s, b, e);
      assert s[e..e + 2] == "\")";
    }
    assert CallSearch(s, name, 0) == Some(0);
    assert RewriteFrom(s, name, e + 2) == [] by {
      assert e + 2 == |s|;
      assert CallMatchAt(s, |s|, name).None?;
    }
    assert s[b..e] == x;
  }

  lemma {:induction false} QuoteFreeEndIs(s: string, i: nat, e: nat)
    requires i <= e < |s| && s[e] == '"'
    requires forall k :: i <= k < e ==> s[k] != '"'
    ensures QuoteFreeEnd(s, i) == e
    decreases e - i
  {
    if i < e {
      QuoteFreeEndIs(s, i + 1, e);
    }
  }

  /** The first pass changes nothing in a text without backticks. */
  lemma {:induction false} StripFencesKeepsPlainText(s: string, i: nat)
    requires i <= |s|
    requires forall k :: i <= k < |s| ==> s[k] != '`'
    ensures StripFencesFrom(s, i) == s[i..]
    decreases |s| - i
  {
    if i < |s| {
      assert !HasAt(s, i, "```json") && !HasAt(s, i, "```") by {
        assert s[i] != '`';
      }
      StripFencesKeepsPlainText(s, i + 1);
    }
  }
}

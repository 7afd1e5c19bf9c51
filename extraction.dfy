/**
 * Smart-fill of an item from a product URL (`extractFromUrl`): the URL
 * guard, the clean-up of the model's reply before it is parsed, and the
 * defaulting of the extracted fields. The two remote services, URL
 * validation and `JSON.parse` are parameters.
 */
module Extraction {
  import opened Wrappers
  import opened JsValues

  /**
   * The characters `String.prototype.trim` removes, by code point: tab, line
   * feed, vertical tab, form feed, carriage return, space, no-break space,
   * the other space separators, the line and paragraph separators and the
   * byte order mark.
   */
  predicate IsSpace(c: char)
  {
    var n := c as int;
    (9 <= n <= 13) || n == 0x20 || n == 0xA0 || n == 0x1680 || (0x2000 <= n <= 0x200A) ||
    n == 0x2028 || n == 0x2029 || n == 0x202F || n == 0x205F || n == 0x3000 || n == 0xFEFF
  }

  /** Nothing but white space. */
  predicate AllSpace(s: string)
  {
    forall i :: 0 <= i < |s| ==> IsSpace(s[i])
  }

  /** Neither end is white space. */
  predicate Trimmed(s: string)
  {
    s == [] || (!IsSpace(s[0]) && !IsSpace(s[|s| - 1]))
  }

  /** How many white-space characters `s` starts with. */
  function LeadingSpace(s: string): (n: nat)
    ensures n <= |s|
    ensures forall i :: 0 <= i < n ==> IsSpace(s[i])
    ensures n == |s| || !IsSpace(s[n])
  {
    if s != [] && IsSpace(s[0]) then 1 + LeadingSpace(s[1..]) else 0
  }

  /** How many white-space characters `s` ends with. */
  function TrailingSpace(s: string): (n: nat)
    ensures n <= |s|
    ensures forall i :: |s| - n <= i < |s| ==> IsSpace(s[i])
    ensures n == |s| || !IsSpace(s[|s| - n - 1])
  {
    if s != [] && IsSpace(s[|s| - 1]) then 1 + TrailingSpace(s[..|s| - 1]) else 0
  }

  /** `trimStart`: leading white space dropped. */
  function TrimStart(s: string): string
  {
    s[LeadingSpace(s)..]
  }

  /** `trimEnd`: trailing white space dropped. */
  function TrimEnd(s: string): string
  {
    s[..|s| - TrailingSpace(s)]
  }

  /** `s.trim()` */
  function Trim(s: string): (r: string)
    ensures Trimmed(r)
    ensures |r| <= |s|
  {
    var t := TrimStart(s);
    var r := TrimEnd(t);
    assert r != [] ==> r[0] == s[LeadingSpace(s)];
    r
  }

  /** Trimming keeps a string that has no surrounding white space. */
  lemma {:induction false} TrimKeepsTrimmed(s: string)
    requires Trimmed(s)
    ensures Trim(s) == s
  {
    assert s[..0] == [] && s[0..] == s;
    TrimStartDrops(s, 0);
    assert s[|s|..] == [] && s[..|s|] == s;
    TrimEndDrops(s, |s|);
  }

  /** Leading white space followed by a non-space (or nothing) is exactly what `TrimStart` drops. */
  lemma {:induction false} TrimStartDrops(s: string, k: nat)
    requires k <= |s| && AllSpace(s[..k])
    requires k == |s| || !IsSpace(s[k])
    ensures TrimStart(s) == s[k..]
  {
    forall i | 0 <= i < k
      ensures IsSpace(s[i])
    {
      assert s[i] == s[..k][i];
    }
    assert LeadingSpace(s) == k;
  }

  /** Trailing white space preceded by a non-space (or nothing) is exactly what `TrimEnd` drops. */
  lemma {:induction false} TrimEndDrops(s: string, k: nat)
    requires k <= |s| && AllSpace(s[k..])
    requires k == 0 || !IsSpace(s[k - 1])
    ensures TrimEnd(s) == s[..k]
  {
    forall i | k <= i < |s|
      ensures IsSpace(s[i])
    {
      assert s[i] == s[k..][i - k];
    }
    assert TrailingSpace(s) == |s| - k;
  }

  lemma {:induction false} AllSpaceConcat(a: string, b: string)
    requires AllSpace(a) && AllSpace(b)
    ensures AllSpace(a + b)
  {
    forall i | 0 <= i < |a + b|
      ensures IsSpace((a + b)[i])
    {
      if i < |a| {
        assert (a + b)[i] == a[i];
      } else {
        assert (a + b)[i] == b[i - |a|];
      }
    }
  }

  /** White space around a trimmed string is exactly what `trim` removes. */
  lemma {:induction false} TrimAround(before: string, body: string, after: string)
    requires AllSpace(before) && AllSpace(after) && Trimmed(body)
    ensures Trim(before + body + after) == body
  {
    var s := before + body + after;
    if body == [] {
      assert s == before + after;
      AllSpaceConcat(before, after);
      assert s[..|s|] == s;
      TrimStartDrops(s, |s|);
      assert TrimStart(s) == [];
    } else {
      assert s[..|before|] == before;
      assert s[|before|] == body[0];
      TrimStartDrops(s, |before|);
      var t := s[|before|..];
      assert t == body + after;
      assert t[|body|..] == after;
      assert t[|body| - 1] == body[|body| - 1];
      TrimEndDrops(t, |body|);
      assert t[..|body|] == body;
    }
  }

  predicate StartsWith(s: string, prefix: string)
  {
    |prefix| <= |s| && forall i :: 0 <= i < |prefix| ==> s[i] == prefix[i]
  }

  predicate EndsWith(s: string, suffix: string)
  {
    |suffix| <= |s| && forall i :: 0 <= i < |suffix| ==> s[|s| - |suffix| + i] == suffix[i]
  }

  const Fence: string := "```"
  const JsonFence: string := "```json"

  /** `s.slice(|prefix|)` when `s` starts with `prefix`. */
  function DropPrefix(s: string, prefix: string): string
  {
    if StartsWith(s, prefix) then s[|prefix|..] else s
  }

  /** `s.slice(0, -|suffix|)` when `s` ends with `suffix`. */
  function DropSuffix(s: string, suffix: string): string
  {
    if EndsWith(s, suffix) then s[..|s| - |suffix|] else s
  }

  /** One opening ```json or ``` fence and one closing ``` fence removed, in that order. */
  function StripFences(s: string): string
  {
    DropSuffix(DropPrefix(DropPrefix(s, JsonFence), Fence), Fence)
  }

  /** The text handed to `JSON.parse`: trimmed, fences removed, trimmed again. */
  function Cleaned(content: string): string
  {
    Trim(StripFences(Trim(content)))
  }

  /** The clean-up of lines 166-176, step by step on `jsonStr`. */
  method CleanFences(content: string) returns (jsonStr: string)
    ensures jsonStr == Cleaned(content)
    ensures Trimmed(jsonStr)
  {
    jsonStr := Trim(content);
    ghost var trimmed := jsonStr;
    if StartsWith(jsonStr, JsonFence) {
      jsonStr := jsonStr[|JsonFence|..];
    }
    assert jsonStr == DropPrefix(trimmed, JsonFence);
    ghost var afterJson := jsonStr;
    if StartsWith(jsonStr, Fence) {
      jsonStr := jsonStr[|Fence|..];
    }
    assert jsonStr == DropPrefix(afterJson, Fence);
    ghost var unfenced := jsonStr;
    if EndsWith(jsonStr, Fence) {
      jsonStr := jsonStr[..|jsonStr| - |Fence|];
    }
    assert jsonStr == DropSuffix(unfenced, Fence);
    jsonStr := Trim(jsonStr);
  }

  /** Text without fences has nothing stripped. */
  lemma {:induction false} StripFencesKeepsPlainText(s: string)
    requires !StartsWith(s, Fence) && !EndsWith(s, Fence)
    ensures StripFences(s) == s
  {
    NotStartsWithLonger(s, Fence, JsonFence);
  }

  /** A string that does not start with `p` does not start with anything `p` begins. */
  lemma {:induction false} NotStartsWithLonger(s: string, p: string, q: string)
    requires StartsWith(q, p) && !StartsWith(s, p)
    ensures !StartsWith(s, q)
  {
    if |p| <= |s| {
      var i :| 0 <= i < |p| && s[i] != p[i];
      assert q[i] == p[i];
      DiffersAt(s, q, i);
    }
  }

  /** Text without fences and without surrounding white space passes through unchanged. */
  lemma {:induction false} CleanedKeepsPlainText(s: string)
    requires Trimmed(s) && !StartsWith(s, Fence) && !EndsWith(s, Fence)
    ensures Cleaned(s) == s
  {
    TrimKeepsTrimmed(s);
    StripFencesKeepsPlainText(s);
  }

  lemma {:induction false} StartsWithConcat(a: string, b: string)
    ensures StartsWith(a + b, a)
  {
    forall i | 0 <= i < |a| ensures (a + b)[i] == a[i] {
    }
  }

  lemma {:induction false} EndsWithConcat(a: string, b: string)
    ensures EndsWith(a + b, b)
  {
    forall i | 0 <= i < |b| ensures (a + b)[|a + b| - |b| + i] == b[i] {
    }
  }

  /** A string whose character `i` differs from `p`'s does not start with `p`. */
  lemma {:induction false} DiffersAt(s: string, p: string, i: nat)
    requires i < |p| && i < |s| && s[i] != p[i]
    ensures !StartsWith(s, p)
  {
  }

  /** Stripping a fenced block leaves the inside, newlines included. */
  lemma {:induction false} StripFencesUnwraps(body: string, json: bool)
    ensures StripFences((if json then JsonFence else Fence) + "\n" + body + "\n" + Fence) == "\n" + body + "\n"
  {
    var open := if json then JsonFence else Fence;
    var s := open + "\n" + body + "\n" + Fence;
    var inner := "\n" + body + "\n";
    var rest := inner + Fence;
    assert s == open + rest;
    assert rest[0] == '\n';
    DiffersAt(rest, Fence, 0);
    DiffersAt(rest, JsonFence, 0);
    var s1 := DropPrefix(s, JsonFence);
    if json {
      StartsWithConcat(JsonFence, rest);
      assert s1 == rest;
    } else {
      assert s[3] == '\n';
      DiffersAt(s, JsonFence, 3);
      assert s1 == s;
      StartsWithConcat(Fence, rest);
      assert s[|Fence|..] == rest;
    }
    assert DropPrefix(s1, Fence) == rest;
    EndsWithConcat(inner, Fence);
    assert rest[..|rest| - |Fence|] == inner;
  }

  /** A fenced block starts and ends with a backquote, so there is nothing to trim around it. */
  lemma {:induction false} FencedIsTrimmed(body: string, json: bool)
    ensures Trimmed((if json then JsonFence else Fence) + "\n" + body + "\n" + Fence)
  {
    var open := if json then JsonFence else Fence;
    var s := open + "\n" + body + "\n" + Fence;
    assert s[0] == open[0] == '`';
    assert s[|s| - 1] == Fence[2] == '`';
  }

  /** Newlines around a trimmed string are trimmed away. */
  lemma {:induction false} NewlinesTrimmed(body: string)
    requires Trimmed(body)
    ensures Trim("\n" + body + "\n") == body
  {
    assert AllSpace("\n") by {
      assert "\n"[0] == '\n';
    }
    TrimAround("\n", body, "\n");
  }

  /** A reply wrapped in a ```json fence (or a bare ``` fence) on its own lines yields the body. */
  lemma {:induction false} CleanedUnwrapsFence(body: string, json: bool)
    requires Trimmed(body)
    ensures Cleaned((if json then JsonFence else Fence) + "\n" + body + "\n" + Fence) == body
  {
    var s := (if json then JsonFence else Fence) + "\n" + body + "\n" + Fence;
    var inner := "\n" + body + "\n";
    FencedIsTrimmed(body, json);
    TrimKeepsTrimmed(s);
    assert Trim(s) == s;
    StripFencesUnwraps(body, json);
    assert StripFences(s) == inner;
    NewlinesTrimmed(body);
    assert Trim(inner) == body;
  }

  /** The item `extractWithClaude` returns once the reply parses. */
  datatype Extracted = Extracted(
    name: Json, brand: Json, category: Json, weight: Json, weightUnit: Json, description: Json,
    productUrl: string, confidence: real, itemType: Json, calories: Json)

  /** A field read with `|| fallback`: a truthy value is kept, anything falsy (0 and '' included) is replaced. */
  predicate OrDefault(read: Option<Json>, field: Json, fallback: Json)
  {
    if Truthy(read) then Some(field) == read else field == fallback
  }

  /** A field read with `?? null`: everything is kept (0 and '' included) except a missing value, which becomes null. */
  predicate NullDefault(read: Option<Json>, field: Json)
  {
    if read.Some? then field == read.value else field == JNull
  }

  const ParseFailure: string := "Failed to parse extracted product data"

  /**
   * Lines 187-198: text fields default to '' when falsy, `weight` and
   * `calories` keep everything but null/undefined, `confidence` must be a
   * number, `item_type` defaults to 'gear', and the URL is the caller's.
   * Reading a property of `null` throws, which ends in the parse failure.
   */
  function DefaultFields(parsed: Json, originalUrl: string): (r: Result<Extracted>)
    ensures r.Err? <==> parsed == JNull
    ensures r.Err? ==> r.message == ParseFailure
    ensures r.Ok? ==> r.value.productUrl == originalUrl
    ensures r.Ok? ==> && OrDefault(Prop(parsed, "name"), r.value.name, JStr(""))
                      && OrDefault(Prop(parsed, "brand"), r.value.brand, JStr(""))
                      && OrDefault(Prop(parsed, "category"), r.value.category, JStr(""))
                      && OrDefault(Prop(parsed, "weight_unit"), r.value.weightUnit, JStr(""))
                      && OrDefault(Prop(parsed, "description"), r.value.description, JStr(""))
                      && OrDefault(Prop(parsed, "item_type"), r.value.itemType, JStr("gear"))
    ensures r.Ok? ==> && NullDefault(Prop(parsed, "weight"), r.value.weight)
                      && NullDefault(Prop(parsed, "calories"), r.value.calories)
    ensures r.Ok? ==> if Prop(parsed, "confidence").Some? && Prop(parsed, "confidence").value.JNum?
                      then Prop(parsed, "confidence") == Some(JNum(r.value.confidence))
                      else r.value.confidence == 0.5
  {
    if parsed == JNull then Err(ParseFailure)
    else
      var confidence := Prop(parsed, "confidence");
      Ok(Extracted(
        name := Or(Prop(parsed, "name"), JStr("")),
        brand := Or(Prop(parsed, "brand"), JStr("")),
        category := Or(Prop(parsed, "category"), JStr("")),
        weight := Coalesce(Prop(parsed, "weight"), JNull),
        weightUnit := Or(Prop(parsed, "weight_unit"), JStr("")),
        description := Or(Prop(parsed, "description"), JStr("")),
        productUrl := originalUrl,
        confidence := if confidence.Some? && confidence.value.JNum? then confidence.value.n else 0.5,
        itemType := Or(Prop(parsed, "item_type"), JStr("gear")),
        calories := Coalesce(Prop(parsed, "calories"), JNull)))
  }

  /** `!url || typeof url !== 'string'` fails for everything but a non-empty string. */
  predicate UrlGiven(url: Option<Json>)
  {
    url.Some? && url.value.JStr? && url.value.s != ""
  }

  /** `x || fallback` on a string. */
  function OrText(s: string, fallback: string): string
  {
    if s == "" then fallback else s
  }

  const UrlRequired: string := "URL is required"
  const InvalidUrl: string := "Invalid URL format. Please enter a valid http or https URL."
  const NotConfigured: string := "Product lookup service is not configured"
  const NothingFound: string := "No product information found for this URL"
  const ExtractionFailed: string := "Failed to extract product details. Please fill in the form manually."

  /**
   * What `extractFromUrl` does once it holds the trimmed URL.
   * `fetchProduct` stands for the Perplexity call, `extractReply` for the
   * text of the Anthropic reply (an `Err` is a thrown error and its
   * message), `parseJson` for `JSON.parse` (`None` when it throws).
   */
  function ExtractTrimmed(trimmedUrl: string, isValidUrl: string -> bool, perplexityConfigured: bool,
                          anthropicConfigured: bool, fetchProduct: string -> Result<string>,
                          extractReply: (string, string) -> Result<string>, parseJson: string -> Option<Json>)
    : Result<Extracted>
  {
    if !isValidUrl(trimmedUrl) then Err(InvalidUrl)
    else if !perplexityConfigured || !anthropicConfigured then Err(NotConfigured)
    else match fetchProduct(trimmedUrl)
      case Err(m) => Err(OrText(m, ExtractionFailed))
      case Ok(found) =>
        if found == "" then Err(NothingFound)
        else match extractReply(found, trimmedUrl)
          case Err(m) => Err(OrText(m, ExtractionFailed))
          case Ok(text) =>
            var parsed := parseJson(Cleaned(OrText(text, "{}")));
            if parsed.None? then Err(ParseFailure) else DefaultFields(parsed.value, trimmedUrl)
  }

  /** The outcome of `extractFromUrl(url)`: the URL guard, then everything else on the trimmed URL. */
  function Extract(url: Option<Json>, isValidUrl: string -> bool, perplexityConfigured: bool,
                   anthropicConfigured: bool, fetchProduct: string -> Result<string>,
                   extractReply: (string, string) -> Result<string>, parseJson: string -> Option<Json>)
    : Result<Extracted>
  {
    if !UrlGiven(url) then Err(UrlRequired)
    else ExtractTrimmed(Trim(url.value.s), isValidUrl, perplexityConfigured, anthropicConfigured,
                        fetchProduct, extractReply, parseJson)
  }

  /** After the URL guard: validation, then the keys; a success carries the URL it was given; a failure has a message. */
  lemma {:induction false} ExtractTrimmedGuards(trimmedUrl: string, isValidUrl: string -> bool,
                                                perplexityConfigured: bool, anthropicConfigured: bool,
                                                fetchProduct: string -> Result<string>,
                                                extractReply: (string, string) -> Result<string>,
                                                parseJson: string -> Option<Json>)
    ensures var r := ExtractTrimmed(trimmedUrl, isValidUrl, perplexityConfigured, anthropicConfigured,
                                    fetchProduct, extractReply, parseJson);
      && (!isValidUrl(trimmedUrl) ==> r == Err(InvalidUrl))
      && (isValidUrl(trimmedUrl) && !(perplexityConfigured && anthropicConfigured) ==> r == Err(NotConfigured))
      && (r.Ok? ==> && r.value.productUrl == trimmedUrl && isValidUrl(trimmedUrl)
                    && perplexityConfigured && anthropicConfigured
                    && fetchProduct(trimmedUrl).Ok? && fetchProduct(trimmedUrl).value != "")
      && (r.Err? ==> r.message != "")
  {
    if isValidUrl(trimmedUrl) && perplexityConfigured && anthropicConfigured {
      var found := fetchProduct(trimmedUrl);
      if found.Ok? && found.value != "" {
        var reply := extractReply(found.value, trimmedUrl);
        if reply.Ok? {
          var parsed := parseJson(Cleaned(OrText(reply.value, "{}")));
          if parsed.Some? {
            var d := DefaultFields(parsed.value, trimmedUrl);
            assert d.Ok? ==> d.value.productUrl == trimmedUrl;
            assert d.Err? ==> d.message == ParseFailure;
          }
        }
      }
    }
  }

  /**
   * The guards come first and in order; a success went through a given,
   * valid URL, both keys and a non-empty product description, and carries
   * the trimmed URL; a failure always has a message to show.
   */
  lemma {:induction false} ExtractGuards(url: Option<Json>, isValidUrl: string -> bool, perplexityConfigured: bool,
                                         anthropicConfigured: bool, fetchProduct: string -> Result<string>,
                                         extractReply: (string, string) -> Result<string>,
                                         parseJson: string -> Option<Json>)
    ensures var r := Extract(url, isValidUrl, perplexityConfigured, anthropicConfigured, fetchProduct, extractReply, parseJson);
      && (!UrlGiven(url) ==> r == Err(UrlRequired))
      && (UrlGiven(url) && !isValidUrl(Trim(url.value.s)) ==> r == Err(InvalidUrl))
      && (UrlGiven(url) && isValidUrl(Trim(url.value.s)) && !(perplexityConfigured && anthropicConfigured) ==>
            r == Err(NotConfigured))
      && (r.Ok? ==> && UrlGiven(url) && r.value.productUrl == Trim(url.value.s) && isValidUrl(r.value.productUrl)
                    && perplexityConfigured && anthropicConfigured
                    && fetchProduct(r.value.productUrl).Ok? && fetchProduct(r.value.productUrl).value != "")
      && (r.Err? ==> r.message != "")
  {
    if UrlGiven(url) {
      ExtractTrimmedGuards(Trim(url.value.s), isValidUrl, perplexityConfigured, anthropicConfigured,
                           fetchProduct, extractReply, parseJson);
    }
  }

  /** White space around the URL makes no difference: the trimmed URL is validated, sent and returned. */
  lemma {:induction false} ExtractIgnoresSurroundingSpace(u: string, before: string, after: string,
                                                          isValidUrl: string -> bool, perplexityConfigured: bool,
                                                          anthropicConfigured: bool,
                                                          fetchProduct: string -> Result<string>,
                                                          extractReply: (string, string) -> Result<string>,
                                                          parseJson: string -> Option<Json>)
    requires u != [] && Trimmed(u) && AllSpace(before) && AllSpace(after)
    ensures Extract(Some(JStr(before + u + after)), isValidUrl, perplexityConfigured, anthropicConfigured,
                    fetchProduct, extractReply, parseJson)
         == Extract(Some(JStr(u)), isValidUrl, perplexityConfigured, anthropicConfigured,
                    fetchProduct, extractReply, parseJson)
  {
    var padded := before + u + after;
    TrimAround(before, u, after);
    TrimKeepsTrimmed(u);
    assert |padded| > 0;
    SameTrimSameOutcome(Some(JStr(padded)), Some(JStr(u)), isValidUrl, perplexityConfigured, anthropicConfigured,
                        fetchProduct, extractReply, parseJson);
  }

  /** Two given URLs that trim to the same string have the same outcome. */
  lemma SameTrimSameOutcome(url1: Option<Json>, url2: Option<Json>, isValidUrl: string -> bool,
                            perplexityConfigured: bool, anthropicConfigured: bool,
                            fetchProduct: string -> Result<string>,
                            extractReply: (string, string) -> Result<string>, parseJson: string -> Option<Json>)
    requires UrlGiven(url1) && UrlGiven(url2) && Trim(url1.value.s) == Trim(url2.value.s)
    ensures Extract(url1, isValidUrl, perplexityConfigured, anthropicConfigured, fetchProduct, extractReply, parseJson)
         == Extract(url2, isValidUrl, perplexityConfigured, anthropicConfigured, fetchProduct, extractReply, parseJson)
  {
  }

  /** `extractFromUrl(url)`, step by step with early returns. */
  method ExtractFromUrl(url: Option<Json>, isValidUrl: string -> bool, perplexityConfigured: bool,
                        anthropicConfigured: bool, fetchProduct: string -> Result<string>,
                        extractReply: (string, string) -> Result<string>, parseJson: string -> Option<Json>)
    returns (r: Result<Extracted>)
    ensures r == Extract(url, isValidUrl, perplexityConfigured, anthropicConfigured, fetchProduct, extractReply, parseJson)
  {
    if !UrlGiven(url) {
      return Err(UrlRequired);
    }
    var trimmedUrl := Trim(url.value.s);
    if !isValidUrl(trimmedUrl) {
      return Err(InvalidUrl);
    }
    if !perplexityConfigured || !anthropicConfigured {
      return Err(NotConfigured);
    }
    var perplexityResponse := fetchProduct(trimmedUrl);
    if perplexityResponse.Err? {
      return Err(OrText(perplexityResponse.message, ExtractionFailed));
    }
    if perplexityResponse.value == "" {
      return Err(NothingFound);
    }
    var reply := extractReply(perplexityResponse.value, trimmedUrl);
    if reply.Err? {
      return Err(OrText(reply.message, ExtractionFailed));
    }
    var content := OrText(reply.value, "{}");
    var jsonStr := CleanFences(content);
    var parsed := parseJson(jsonStr);
    if parsed.None? {
      return Err(ParseFailure);
    }
    r := DefaultFields(parsed.value, trimmedUrl);
  }
}

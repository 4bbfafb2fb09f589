/**
 * The pure helpers of the HTTP logging filter: masking sensitive fields of a JSON body, dropping
 * sensitive headers, deciding which methods carry a body, which paths are not logged, and
 * truncating a body that is not JSON.
 */
module Logging {
  import opened Common
  import opened Text

  /** ApplicationConstant.MASKED_VALUE */
  const MaskedValue: string := "******"

  /** ApplicationConstant.EXCLUDED_LOG_PATHS */
  const ExcludedLogPaths: seq<string> := ["/actuator", "/h2-console", "/swagger-ui", "/api-docs", "/favicon.ico"]

  /** The length past which a body that is not JSON is cut. */
  const MaxBodyLength: nat := 1000

  /**
   * What Jackson reads a body into: maps (LinkedHashMap, in key order), lists, and scalars.
   * Numbers are kept as integers; their exact representation plays no part here.
   */
  datatype Json =
    | JNull
    | JBool(b: bool)
    | JNum(n: int)
    | JStr(s: string)
    | JArr(items: seq<Json>)
    | JObj(entries: seq<(string, Json)>)

  /**
   * A name is sensitive when its lower-case form contains the lower-case form of some configured
   * sensitive field. isSensitiveHeader and the key test of sanitizeJsonObject are this test.
   */
  predicate IsSensitiveName(sensitiveFields: seq<string>, name: string) {
    exists i | 0 <= i < |sensitiveFields| :: Contains(Lower(name), Lower(sensitiveFields[i]))
  }

  /**
   * sanitizeJsonObject: in a map, the value of a sensitive key becomes "******" and every other
   * value is sanitized in turn, keys and their order kept; a list is sanitized element by element;
   * anything else is returned unchanged.
   */
  function Sanitize(sensitiveFields: seq<string>, j: Json): (r: Json)
    decreases j
  {
    match j
    case JObj(entries) =>
      JObj(seq(|entries|, i requires 0 <= i < |entries| =>
        (entries[i].0,
         if IsSensitiveName(sensitiveFields, entries[i].0) then JStr(MaskedValue)
         else Sanitize(sensitiveFields, entries[i].1))))
    case JArr(items) =>
      JArr(seq(|items|, i requires 0 <= i < |items| => Sanitize(sensitiveFields, items[i])))
    case _ => j
  }

  /** Every sensitive key, at any depth, holds the masked value. */
  predicate Masked(sensitiveFields: seq<string>, j: Json)
    decreases j
  {
    match j
    case JObj(entries) =>
      forall i | 0 <= i < |entries| ::
        if IsSensitiveName(sensitiveFields, entries[i].0) then entries[i].1 == JStr(MaskedValue)
        else Masked(sensitiveFields, entries[i].1)
    case JArr(items) => forall i | 0 <= i < |items| :: Masked(sensitiveFields, items[i])
    case _ => true
  }

  /** The shape sanitizing keeps: maps keep their keys in order, lists their length, scalars their value. */
  lemma SanitizeShape(sensitiveFields: seq<string>, j: Json)
    ensures var r := Sanitize(sensitiveFields, j);
      && (j.JObj? <==> r.JObj?) && (j.JArr? <==> r.JArr?)
      && (j.JObj? ==> |r.entries| == |j.entries| && forall i :: 0 <= i < |j.entries| ==> r.entries[i].0 == j.entries[i].0)
      && (j.JObj? ==> forall i :: 0 <= i < |j.entries| && !IsSensitiveName(sensitiveFields, j.entries[i].0) ==>
            r.entries[i].1 == Sanitize(sensitiveFields, j.entries[i].1))
      && (j.JArr? ==> |r.items| == |j.items| && forall i :: 0 <= i < |j.items| ==> r.items[i] == Sanitize(sensitiveFields, j.items[i]))
      && (!j.JObj? && !j.JArr? ==> r == j)
  {
  }

  /** After sanitizing, no sensitive key at any depth reveals its value. */
  lemma {:induction false} SanitizeMasks(sensitiveFields: seq<string>, j: Json)
    ensures Masked(sensitiveFields, Sanitize(sensitiveFields, j))
    decreases j
  {
    match j
    case JObj(entries) =>
      var r := Sanitize(sensitiveFields, j);
      forall i | 0 <= i < |entries| && !IsSensitiveName(sensitiveFields, entries[i].0)
        ensures Masked(sensitiveFields, r.entries[i].1)
      {
        SanitizeMasks(sensitiveFields, entries[i].1);
      }
    case JArr(items) =>
      forall i | 0 <= i < |items|
        ensures Masked(sensitiveFields, Sanitize(sensitiveFields, items[i]))
      {
        SanitizeMasks(sensitiveFields, items[i]);
      }
    case _ =>
  }

  /** Sanitizing an already sanitized body changes nothing. */
  lemma {:induction false} SanitizeIdempotent(sensitiveFields: seq<string>, j: Json)
    ensures Sanitize(sensitiveFields, Sanitize(sensitiveFields, j)) == Sanitize(sensitiveFields, j)
    decreases j
  {
    match j
    case JObj(entries) =>
      var r := Sanitize(sensitiveFields, j);
      var rr := Sanitize(sensitiveFields, r);
      forall i | 0 <= i < |entries|
        ensures rr.entries[i] == r.entries[i]
      {
        if !IsSensitiveName(sensitiveFields, entries[i].0) {
          SanitizeIdempotent(sensitiveFields, entries[i].1);
        }
      }
    case JArr(items) =>
      var r := Sanitize(sensitiveFields, j);
      var rr := Sanitize(sensitiveFields, r);
      forall i | 0 <= i < |items|
        ensures rr.items[i] == r.items[i]
      {
        SanitizeIdempotent(sensitiveFields, items[i]);
      }
    case _ =>
  }

  /** A body already masked everywhere is left as it is. */
  lemma {:induction false} SanitizeKeepsMasked(sensitiveFields: seq<string>, j: Json)
    requires Masked(sensitiveFields, j)
    ensures Sanitize(sensitiveFields, j) == j
    decreases j
  {
    match j
    case JObj(entries) =>
      var r := Sanitize(sensitiveFields, j);
      forall i | 0 <= i < |entries|
        ensures r.entries[i] == entries[i]
      {
        if !IsSensitiveName(sensitiveFields, entries[i].0) {
          SanitizeKeepsMasked(sensitiveFields, entries[i].1);
        }
      }
    case JArr(items) =>
      var r := Sanitize(sensitiveFields, j);
      forall i | 0 <= i < |items|
        ensures r.items[i] == items[i]
      {
        SanitizeKeepsMasked(sensitiveFields, items[i]);
      }
    case _ =>
  }

  /** A login body: the password is masked, the username kept. */
  lemma SanitizeLoginExample()
    ensures Sanitize(["password"], JObj([("username", JStr("alice")), ("Password", JStr("s3cret"))]))
         == JObj([("username", JStr("alice")), ("Password", JStr(MaskedValue))])
  {
    var fields := ["password"];
    assert Lower("Password") == "password";
    assert OccursAt(Lower("Password"), Lower(fields[0]), 0);
    assert IsSensitiveName(fields, "Password");
    assert Lower("username") == "username" && Lower(fields[0]) == "password";
    NotContainsMissingChar("username", "password", 'p');
    assert !IsSensitiveName(fields, "username");
  }

  /** What the filter logs for a body: the sanitized JSON, or the text, truncated. */
  datatype LoggedBody = JsonBody(json: Json) | TextBody(text: string)

  /** The truncation branch of parseJsonBody: more than 1000 characters become the first 1000 and "...". */
  function TruncateBody(body: string): (r: string)
    ensures |body| <= MaxBodyLength ==> r == body
    ensures |body| > MaxBodyLength ==> |r| == MaxBodyLength + 3 && StartsWith(r, body[..MaxBodyLength]) && r[MaxBodyLength..] == "..."
  {
    if |body| > MaxBodyLength then body[..MaxBodyLength] + "..." else body
  }

  /** A truncated body never exceeds 1003 characters and always starts with the body's first characters. */
  lemma TruncateBodyBounded(body: string)
    ensures |TruncateBody(body)| <= MaxBodyLength + 3
    ensures var n := if |body| < MaxBodyLength then |body| else MaxBodyLength;
      n <= |TruncateBody(body)| && TruncateBody(body)[..n] == body[..n]
  {
  }

  /**
   * parseJsonBody(body): `parsed` is what the JSON reader made of the body, None when it threw.
   * A parsed body is sanitized; any other body is logged as text, truncated.
   */
  function ParseJsonBody(sensitiveFields: seq<string>, body: string, parsed: Option<Json>): (r: LoggedBody)
    ensures r.JsonBody? <==> parsed.Some?
    ensures parsed.Some? ==> r == JsonBody(Sanitize(sensitiveFields, parsed.value))
    ensures r.JsonBody? ==> Masked(sensitiveFields, r.json)
    ensures r.TextBody? ==> r.text == TruncateBody(body)
  {
    match parsed
    case Some(j) =>
      SanitizeMasks(sensitiveFields, j);
      JsonBody(Sanitize(sensitiveFields, j))
    case None => TextBody(TruncateBody(body))
  }

  /** hasBody(method): POST, PUT and PATCH, in any case. */
  predicate HasBody(httpMethod: string) {
    EqualsIgnoreCase("POST", httpMethod) || EqualsIgnoreCase("PUT", httpMethod) || EqualsIgnoreCase("PATCH", httpMethod)
  }

  /** Exactly the methods whose lower-case form is post, put or patch have a body. */
  lemma HasBodyIff(httpMethod: string)
    ensures HasBody(httpMethod) <==> Lower(httpMethod) in ["post", "put", "patch"]
  {
    assert Lower("POST") == "post" && Lower("PUT") == "put" && Lower("PATCH") == "patch";
  }

  /** Case does not matter, and GET and DELETE have no body. */
  lemma HasBodyExamples()
    ensures HasBody("post") && HasBody("Put") && HasBody("PATCH")
    ensures !HasBody("GET") && !HasBody("DELETE") && !HasBody("")
  {
    assert Lower("GET") == "get" && Lower("DELETE") == "delete" && Lower("") == "";
    HasBodyIff("post");
    HasBodyIff("Put");
    HasBodyIff("PATCH");
    HasBodyIff("GET");
    HasBodyIff("DELETE");
    HasBodyIff("");
  }

  /** shouldNotFilter(request): the URI starts with one of the excluded paths. */
  predicate ShouldNotFilter(uri: string) {
    exists i | 0 <= i < |ExcludedLogPaths| :: StartsWith(uri, ExcludedLogPaths[i])
  }

  /** Every URI under one of the excluded paths (actuator, console, documentation, favicon) is skipped. */
  lemma ExcludedPathsSkipped(i: int, suffix: string)
    requires 0 <= i < |ExcludedLogPaths|
    ensures ShouldNotFilter(ExcludedLogPaths[i] + suffix)
  {
    var p := ExcludedLogPaths[i];
    assert (p + suffix)[..|p|] == p;
  }

  /** Every URI under /api/ is logged. */
  lemma ApiPathLogged(uri: string)
    requires |uri| >= 5 && uri[..5] == "/api/"
    ensures !ShouldNotFilter(uri)
  {
    assert uri[1] == 'a' && uri[2] == 'p' && uri[4] == '/';
    NotStartsWithAt(uri, ExcludedLogPaths[0], 2);
    NotStartsWithAt(uri, ExcludedLogPaths[1], 1);
    NotStartsWithAt(uri, ExcludedLogPaths[2], 1);
    NotStartsWithAt(uri, ExcludedLogPaths[3], 4);
    NotStartsWithAt(uri, ExcludedLogPaths[4], 1);
  }

  /** A path is skipped exactly when some excluded path is a prefix of it; longer paths below a skipped one are skipped too. */
  lemma ShouldNotFilterExtends(uri: string, suffix: string)
    requires ShouldNotFilter(uri)
    ensures ShouldNotFilter(uri + suffix)
  {
    var i :| 0 <= i < |ExcludedLogPaths| && StartsWith(uri, ExcludedLogPaths[i]);
    assert (uri + suffix)[..|ExcludedLogPaths[i]|] == uri[..|ExcludedLogPaths[i]|];
  }

  /** The names of a list of headers, in order. */
  function NamesOf(headers: seq<(string, string)>): (r: seq<string>)
    ensures |r| == |headers| && forall i :: 0 <= i < |headers| ==> r[i] == headers[i].0
  {
    seq(|headers|, i requires 0 <= i < |headers| => headers[i].0)
  }

  /**
   * The headers getHeaders keeps from a request or response whose headers arrive as `headers`:
   * each distinct name once, at its first occurrence and with its first value (what getHeaderNames
   * and getHeader return), unless it is sensitive.
   */
  function KeptHeaders(sensitiveFields: seq<string>, headers: seq<(string, string)>): seq<(string, string)> {
    if headers == [] then []
    else
      var prefix, last := headers[..|headers| - 1], headers[|headers| - 1];
      KeptHeaders(sensitiveFields, prefix)
      + if !IsSensitiveName(sensitiveFields, last.0) && last.0 !in NamesOf(prefix) then [last] else []
  }

  /** getHeaders: the loop over header names that copies every non-sensitive header into a new map. */
  method GetHeaders(sensitiveFields: seq<string>, headers: seq<(string, string)>) returns (kept: seq<(string, string)>)
    ensures kept == KeptHeaders(sensitiveFields, headers)
  {
    kept := [];
    var seen: set<string> := {};
    var i := 0;
    while i < |headers|
      invariant 0 <= i <= |headers|
      invariant kept == KeptHeaders(sensitiveFields, headers[..i])
      invariant forall n :: n in seen <==> n in NamesOf(headers[..i])
    {
      var (name, value) := headers[i];
      assert headers[..i + 1][..i] == headers[..i];
      if !IsSensitiveName(sensitiveFields, name) && name !in seen {
        kept := kept + [(name, value)];
      }
      seen := seen + {name};
      assert NamesOf(headers[..i + 1]) == NamesOf(headers[..i]) + [name];
      i := i + 1;
    }
    assert headers[..i] == headers;
  }

  /** No kept header is sensitive, and every kept header is one of the input headers. */
  lemma {:induction false} KeptHeadersSound(sensitiveFields: seq<string>, headers: seq<(string, string)>)
    ensures forall h :: h in KeptHeaders(sensitiveFields, headers) ==> h in headers && !IsSensitiveName(sensitiveFields, h.0)
  {
    if headers != [] {
      KeptHeadersSound(sensitiveFields, headers[..|headers| - 1]);
      assert headers == headers[..|headers| - 1] + [headers[|headers| - 1]];
    }
  }

  /** Every header whose name is not sensitive is kept, under its name. */
  lemma {:induction false} KeptHeadersComplete(sensitiveFields: seq<string>, headers: seq<(string, string)>)
    ensures forall i :: 0 <= i < |headers| && !IsSensitiveName(sensitiveFields, headers[i].0) ==>
      headers[i].0 in NamesOf(KeptHeaders(sensitiveFields, headers))
  {
    if headers != [] {
      var prefix := headers[..|headers| - 1];
      KeptHeadersComplete(sensitiveFields, prefix);
      var kept := KeptHeaders(sensitiveFields, headers);
      var keptBefore := KeptHeaders(sensitiveFields, prefix);
      assert kept[..|keptBefore|] == keptBefore;
      forall i | 0 <= i < |headers| && !IsSensitiveName(sensitiveFields, headers[i].0)
        ensures headers[i].0 in NamesOf(kept)
      {
        if i < |prefix| {
          assert prefix[i] == headers[i];
          var k :| 0 <= k < |keptBefore| && keptBefore[k].0 == headers[i].0;
          assert kept[k] == keptBefore[k];
        } else if headers[i].0 in NamesOf(prefix) {
          var j :| 0 <= j < |prefix| && prefix[j].0 == headers[i].0;
          assert prefix[j] == headers[j];
          var k :| 0 <= k < |keptBefore| && keptBefore[k].0 == headers[i].0;
          assert kept[k] == keptBefore[k];
        } else {
          assert kept[|kept| - 1] == headers[i];
        }
      }
    }
  }

  /** Authorization and X-Auth-Token are sensitive against ["authorization", "token"]. */
  lemma ExampleSensitiveHeaders()
    ensures IsSensitiveName(["authorization", "token"], "Authorization")
    ensures IsSensitiveName(["authorization", "token"], "X-Auth-Token")
  {
    var fields := ["authorization", "token"];
    assert Lower(fields[0]) == fields[0] && Lower(fields[1]) == fields[1];
    assert Lower("Authorization")[0..13] == "authorization";
    assert Lower("X-Auth-Token")[7..12] == "token";
    assert OccursAt(Lower("Authorization"), Lower(fields[0]), 0);
    assert OccursAt(Lower("X-Auth-Token"), Lower(fields[1]), 7);
  }

  /** Content-Type is not sensitive against ["authorization", "token"]. */
  lemma ExampleOrdinaryHeader()
    ensures !IsSensitiveName(["authorization", "token"], "Content-Type")
  {
    var fields := ["authorization", "token"];
    assert Lower(fields[0]) == fields[0] && Lower(fields[1]) == fields[1];
    assert Lower("Content-Type") == "content-type";
    NotContainsMissingChar("content-type", "authorization", 'a');
    NotContainsMissingChar("content-type", "token", 'k');
  }

  /** With sensitive fields ["authorization", "token"], Authorization and X-Auth-Token are dropped. */
  lemma GetHeadersExample()
    ensures KeptHeaders(["authorization", "token"],
                        [("Content-Type", "application/json"), ("Authorization", "Bearer x"), ("X-Auth-Token", "t")])
         == [("Content-Type", "application/json")]
  {
    ExampleSensitiveHeaders();
    ExampleOrdinaryHeader();
    var fields := ["authorization", "token"];
    var headers := [("Content-Type", "application/json"), ("Authorization", "Bearer x"), ("X-Auth-Token", "t")];
    assert headers[..2][..1] == headers[..1];
    assert headers[..1][..0] == [];
    assert KeptHeaders(fields, headers[..1]) == [headers[0]];
    assert KeptHeaders(fields, headers[..2]) == [headers[0]];
  }
}

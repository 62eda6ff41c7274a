/** The contract metadata route: the move from the V1 to the V2 explorer
    API, the query parameters of each attempt, the decimal `parseInt` behind
    the optimiser runs, and the assembly of the reply. */
module ContractInfoRoute {
  import opened Wrappers
  import opened Strings
  import opened Json

  // ---------------------------------------------------------------- V1 to V2

  /** `toV2BaseUrl`: a URL that already mentions `/v2/` is kept; otherwise a
      final `/api` or `/api/` becomes `/v2/api`. */
  function ToV2BaseUrl(url: string): (r: string)
    ensures r == url <==> (Contains(url, "/v2/") || (!EndsWith(url, "/api") && !EndsWith(url, "/api/")))
    ensures r != url ==> EndsWith(r, "/v2/api") && Contains(r, "/v2/")
    ensures r != url && EndsWith(url, "/api") ==> r == url[..|url| - 4] + "/v2/api"
    ensures r != url && EndsWith(url, "/api/") ==> r == url[..|url| - 5] + "/v2/api"
  {
    if Contains(url, "/v2/") then url
    else if EndsWith(url, "/api") then
      assert url[|url| - 1] == 'i';
      V2Of(url[..|url| - 4])
    else if EndsWith(url, "/api/") then V2Of(url[..|url| - 5])
    else url
  }

  /** The base with `/v2/api` after it. */
  function V2Of(base: string): (r: string)
    ensures EndsWith(r, "/v2/api") && Contains(r, "/v2/")
  {
    var r := base + "/v2/api";
    assert r[|r| - 7..] == "/v2/api";
    assert OccursAt(r, "/v2/", |r| - 7);
    r
  }

  /** Upgrading an upgraded URL changes nothing. */
  lemma ToV2Idempotent(url: string)
    ensures ToV2BaseUrl(ToV2BaseUrl(url)) == ToV2BaseUrl(url)
  {
  }

  /** The usual Etherscan-style endpoint. */
  lemma ToV2Etherscan(host: string)
    requires !Contains(host + "/api", "/v2/")
    ensures ToV2BaseUrl(host + "/api") == host + "/v2/api"
  {
    var url := host + "/api";
    assert url[|url| - 4..] == "/api";
    assert url[..|url| - 4] == host;
  }

  /** `String(x || "")`. */
  function TextOr(v: JsonValue): string {
    JsString(OrJs(v, Str("")))
  }

  /** The text the deprecation test looks at: the result and the message,
      separated by a space, in lower case. */
  function ErrorText(data: JsonValue): string {
    ToLower(TextOr(OptField(data, "result")) + " " + TextOr(OptField(data, "message")))
  }

  /** `isDeprecatedV1Error`: the explorer says V1 is deprecated, or rejects
      the key. */
  function IsDeprecatedV1Error(data: JsonValue): (r: bool)
    ensures r <==> (Contains(ErrorText(data), "deprecated") && Contains(ErrorText(data), "v1"))
                   || Contains(ErrorText(data), "missing/invalid api key")
  {
    var msg := ErrorText(data);
    (Contains(msg, "deprecated") && Contains(msg, "v1")) || Contains(msg, "missing/invalid api key")
  }

  lemma ToLowerAppend(a: string, b: string)
    ensures ToLower(a + b) == ToLower(a) + ToLower(b)
  {
  }

  lemma ContainsLeft(a: string, b: string, sub: string)
    requires Contains(a, sub)
    ensures Contains(a + b, sub)
  {
    var i :| 0 <= i <= |a| - |sub| && OccursAt(a, sub, i);
    assert (a + b)[i..i + |sub|] == a[i..i + |sub|];
    assert OccursAt(a + b, sub, i);
  }

  /** A result that says, in any case, that the key is missing or invalid
      triggers the move to V2. */
  lemma RejectedKeyIsDeprecation(data: JsonValue, result: string)
    requires data.Obj? && "result" in data.fields && data.fields["result"] == Str(result)
    requires Contains(ToLower(result), "missing/invalid api key")
    ensures IsDeprecatedV1Error(data)
  {
    var rest := " " + TextOr(OptField(data, "message"));
    assert TextOr(OptField(data, "result")) == result;
    assert TextOr(OptField(data, "result")) + " " + TextOr(OptField(data, "message")) == result + rest;
    ToLowerAppend(result, rest);
    ContainsLeft(ToLower(result), ToLower(rest), "missing/invalid api key");
  }

  /** The test ignores the case of the explorer's words. */
  lemma DeprecationIgnoresCase(d1: JsonValue, d2: JsonValue)
    requires ToLower(TextOr(OptField(d1, "result"))) == ToLower(TextOr(OptField(d2, "result")))
    requires ToLower(TextOr(OptField(d1, "message"))) == ToLower(TextOr(OptField(d2, "message")))
    ensures IsDeprecatedV1Error(d1) == IsDeprecatedV1Error(d2)
  {
    ErrorTextParts(d1);
    ErrorTextParts(d2);
  }

  lemma ErrorTextParts(d: JsonValue)
    ensures ErrorText(d) == ToLower(TextOr(OptField(d, "result"))) + " " + ToLower(TextOr(OptField(d, "message")))
  {
    var a, b := TextOr(OptField(d, "result")), TextOr(OptField(d, "message"));
    LowerSpaced(a, b);
  }

  lemma LowerSpaced(a: string, b: string)
    ensures ToLower(a + " " + b) == ToLower(a) + " " + ToLower(b)
  {
  }

  // ---------------------------------------------------------------- query parameters

  /** `URLSearchParams` as its list of pairs. */
  type Params = seq<(string, string)>

  /** The pairs whose key is not `k`, in order. */
  function Without(ps: Params, k: string): (r: Params)
    ensures forall i :: 0 <= i < |r| ==> r[i].0 != k && r[i] in ps
    ensures |r| <= |ps|
  {
    if ps == [] then []
    else (if ps[0].0 == k then [] else [ps[0]]) + Without(ps[1..], k)
  }

  function CountKey(ps: Params, k: string): nat {
    if ps == [] then 0 else (if ps[0].0 == k then 1 else 0) + CountKey(ps[1..], k)
  }

  lemma {:induction false} WithoutAppend(ps: Params, x: (string, string), k: string)
    ensures Without(ps + [x], k) == Without(ps, k) + (if x.0 == k then [] else [x])
  {
    var t := if x.0 == k then [] else [x];
    if ps != [] {
      var h := if ps[0].0 == k then [] else [ps[0]];
      assert (ps + [x])[1..] == ps[1..] + [x];
      assert Without(ps + [x], k) == h + Without(ps[1..] + [x], k);
      WithoutAppend(ps[1..], x, k);
      Assoc(h, Without(ps[1..], k), t);
    } else {
      assert [x][1..] == [];
      assert Without([x], k) == t + [];
    }
  }

  lemma {:induction false} CountAppend(ps: Params, x: (string, string), k: string)
    ensures CountKey(ps + [x], k) == CountKey(ps, k) + (if x.0 == k then 1 else 0)
  {
    if ps != [] {
      assert (ps + [x])[1..] == ps[1..] + [x];
      CountAppend(ps[1..], x, k);
    }
  }

  lemma {:induction false} WithoutAbsent(ps: Params, k: string)
    requires forall i :: 0 <= i < |ps| ==> ps[i].0 != k
    ensures Without(ps, k) == ps && CountKey(ps, k) == 0
  {
    if ps != [] {
      WithoutAbsent(ps[1..], k);
    }
  }

  lemma {:induction false} WithoutTwice(ps: Params, k: string)
    ensures Without(Without(ps, k), k) == Without(ps, k)
    ensures CountKey(Without(ps, k), k) == 0
  {
    WithoutAbsent(Without(ps, k), k);
  }

  /** `set(k, v)` on a list where `k` occurs: the first pair takes the new
      value in place and the later ones go. */
  function ReplaceFirst(ps: Params, k: string, v: string): (r: Params)
    requires exists i :: 0 <= i < |ps| && ps[i].0 == k
  {
    if ps[0].0 == k then [(k, v)] + Without(ps[1..], k)
    else
      assert exists i :: 0 <= i < |ps[1..]| && ps[1..][i].0 == k by {
        var i :| 0 <= i < |ps| && ps[i].0 == k;
        assert ps[1..][i - 1].0 == k;
      }
      [ps[0]] + ReplaceFirst(ps[1..], k, v)
  }

  lemma {:induction false} ReplaceFirstIs(ps: Params, k: string, v: string)
    requires exists i :: 0 <= i < |ps| && ps[i].0 == k
    ensures Lookup(ReplaceFirst(ps, k, v), k) == Some(v)
    ensures Without(ReplaceFirst(ps, k, v), k) == Without(ps, k)
    ensures CountKey(ReplaceFirst(ps, k, v), k) == 1
  {
    if ps[0].0 == k {
      var r := ReplaceFirst(ps, k, v);
      assert r[1..] == Without(ps[1..], k);
      WithoutTwice(ps[1..], k);
    } else {
      var i :| 0 <= i < |ps| && ps[i].0 == k;
      assert ps[1..][i - 1].0 == k;
      ReplaceFirstIs(ps[1..], k, v);
      var r := ReplaceFirst(ps, k, v);
      assert r[1..] == ReplaceFirst(ps[1..], k, v);
    }
  }

  /** `URLSearchParams.set`: afterwards `k` occurs once, with value `v`, and
      every other pair is as before, in the same order. */
  function SetParam(ps: Params, k: string, v: string): (r: Params)
    ensures Lookup(r, k) == Some(v)
    ensures CountKey(r, k) == 1
    ensures Without(r, k) == Without(ps, k)
  {
    if exists i :: 0 <= i < |ps| && ps[i].0 == k then
      ReplaceFirstIs(ps, k, v);
      ReplaceFirst(ps, k, v)
    else
      WithoutAppend(ps, (k, v), k);
      CountAppend(ps, (k, v), k);
      WithoutAbsent(ps, k);
      LookupAppended(ps, k, v);
      ps + [(k, v)]
  }

  lemma LookupAppended(ps: Params, k: string, v: string)
    requires forall i :: 0 <= i < |ps| ==> ps[i].0 != k
    ensures Lookup(ps + [(k, v)], k) == Some(v)
  {
    var r := ps + [(k, v)];
    assert r[|ps|].0 == k;
    var w := Lookup(r, k).value;
    var i :| 0 <= i < |r| && r[i] == (k, w);
    assert i == |ps|;
  }

  // ---------------------------------------------------------------- explorer requests

  /** One explorer request: the base URL and the query. */
  datatype Request = Request(baseUrl: string, params: Params)

  /** The explorer settings of a chain: the V1 API URL, the key (may be
      empty) and the chain id (`""` when unknown). */
  datatype ScanConfig = ScanConfig(url: string, apiKey: string, chainId: string)

  /** One attempt of `fetchExplorer`: the chain id is set only on the V2
      attempt, and only when it is known. */
  function Attempt(baseUrl: string, params: Params, useV2: bool, chainId: string): (r: Request)
    ensures r.baseUrl == baseUrl
    ensures useV2 && chainId != "" ==> Lookup(r.params, "chainid") == Some(chainId)
    ensures useV2 && chainId != "" ==> Without(r.params, "chainid") == Without(params, "chainid")
    ensures !(useV2 && chainId != "") ==> r.params == params
  {
    Request(baseUrl, if useV2 && chainId != "" then SetParam(params, "chainid", chainId) else params)
  }

  /** The V1 reply asks for the V2 retry: status `"0"` and a deprecation text. */
  predicate WantsV2(json: JsonValue) {
    OptField(json, "status") == Str("0") && IsDeprecatedV1Error(json)
  }

  /** `fetchExplorer`: the requests made, in order, and the reply used;
      `fetch` is the explorer, `None` where the request or the JSON decoding
      throws. */
  function FetchExplorer(cfg: ScanConfig, params: Params, fetch: Request -> Option<JsonValue>): (r: (seq<Request>, Option<JsonValue>))
    ensures 1 <= |r.0| <= 2
    ensures r.0[0] == Request(cfg.url, params)
    ensures |r.0| == 2 <==> fetch(r.0[0]).Some? && WantsV2(fetch(r.0[0]).value)
    ensures |r.0| == 2 ==> r.0[1] == Attempt(ToV2BaseUrl(cfg.url), params, true, cfg.chainId)
    ensures r.1 == fetch(r.0[|r.0| - 1])
  {
    var v1 := Attempt(cfg.url, params, false, cfg.chainId);
    var json := fetch(v1);
    if json.Some? && WantsV2(json.value) then
      var v2 := Attempt(ToV2BaseUrl(cfg.url), params, true, cfg.chainId);
      ([v1, v2], fetch(v2))
    else ([v1], json)
  }

  /** The V1 request never carries a chain id the caller did not put there. */
  lemma FirstAttemptPlain(cfg: ScanConfig, params: Params, fetch: Request -> Option<JsonValue>)
    requires Lookup(params, "chainid").None?
    ensures Lookup(FetchExplorer(cfg, params, fetch).0[0].params, "chainid").None?
  {
  }

  // ---------------------------------------------------------------- parseInt

  /** The value of a run of decimal digits. */
  function DigitsValue(d: string): (r: nat)
    requires forall i :: 0 <= i < |d| ==> IsDigit(d[i])
  {
    if d == [] then 0
    else
      assert IsDigit(d[|d| - 1]);
      10 * DigitsValue(d[..|d| - 1]) + (d[|d| - 1] as int - '0' as int)
  }

  /** The value of a run of hexadecimal digits. */
  function HexDigitsValue(d: string): (r: nat)
    requires forall i :: 0 <= i < |d| ==> HexValue(d[i]).Some?
  {
    if d == [] then 0 else 16 * HexDigitsValue(d[..|d| - 1]) + HexValue(d[|d| - 1]).value
  }

  /** The end of the run of hexadecimal digits that starts at `i`. */
  function HexEnd(s: string, i: nat): (e: nat)
    requires i <= |s|
    ensures i <= e <= |s|
    ensures forall k :: i <= k < e ==> HexValue(s[k]).Some?
    ensures e < |s| ==> HexValue(s[e]).None?
    decreases |s| - i
  {
    if i < |s| && HexValue(s[i]).Some? then HexEnd(s, i + 1) else i
  }

  /** `parseInt(s)` without a radix: leading white space, an optional sign,
      then hexadecimal digits after `0x`/`0X` and decimal digits otherwise,
      as many as there are; `None` (NaN) when there is no digit. */
  function ParseInt(s: string): (r: Option<int>)
  {
    var i := SpaceEnd(s, 0);
    var neg := i < |s| && s[i] == '-';
    var j := if i < |s| && (s[i] == '-' || s[i] == '+') then i + 1 else i;
    if j + 1 < |s| && s[j] == '0' && (s[j + 1] == 'x' || s[j + 1] == 'X') then
      var e := HexEnd(s, j + 2);
      if e == j + 2 then None
      else
        var n: int := HexDigitsValue(s[j + 2..e]);
        Some(if neg then -n else n)
    else
      var e := DigitEnd(s, j);
      if e == j then None
      else
        var n: int := DigitsValue(s[j..e]);
        Some(if neg then -n else n)
  }

  lemma {:induction false} DigitsOfNat(n: nat)
    ensures DigitsValue(NatToString(n)) == n
  {
    var s := NatToString(n);
    if n >= 10 {
      assert s[..|s| - 1] == NatToString(n / 10);
      DigitsOfNat(n / 10);
    }
  }

  /** `parseInt(String(n))` gives `n` back. */
  lemma ParseIntOfNat(n: nat)
    ensures ParseInt(NatToString(n)) == Some(n)
  {
    var s := NatToString(n);
    assert !IsSpace(s[0]) && s[0] != '-' && s[0] != '+';
    assert SpaceEnd(s, 0) == 0;
    assert 1 < |s| ==> s[1] != 'x' && s[1] != 'X';
    DigitEndAll(s, 0);
    assert s[0..|s|] == s;
    DigitsOfNat(n);
    assert ParseInt(s) == Some(DigitsValue(s[0..|s|]));
  }

  lemma {:induction false} DigitEndAll(s: string, i: nat)
    requires i <= |s|
    requires forall k :: i <= k < |s| ==> IsDigit(s[k])
    ensures DigitEnd(s, i) == |s|
    decreases |s| - i
  {
    if i < |s| {
      DigitEndAll(s, i + 1);
    }
  }

  /** `parseInt(String(v)) || 200`: the runs, 200 when there are no digits
      or they read 0. */
  function Runs(v: JsonValue): (r: int)
    ensures r != 0
    ensures ParseInt(JsString(v)).None? ==> r == 200
    ensures ParseInt(JsString(v)).Some? && ParseInt(JsString(v)).value != 0 ==> r == ParseInt(JsString(v)).value
  {
    var p := ParseInt(JsString(v));
    if p.None? || p.value == 0 then 200 else p.value
  }

  /** The runs the explorer reports are used as they are, and missing or
      zero runs read 200. */
  lemma RunsReported(n: nat)
    ensures n > 0 ==> Runs(Str(NatToString(n))) == n
    ensures Runs(Str(NatToString(0))) == 200
    ensures Runs(Missing) == 200
  {
    ParseIntOfNat(n);
    ParseIntOfNat(0);
    assert JsString(Missing) == "undefined";
    var u := "undefined";
    assert SpaceEnd(u, 0) == 0;
    assert DigitEnd(u, 0) == 0;
  }

  // ---------------------------------------------------------------- the reply

  /** The reply's fields. Values are what the route puts there, which need
      not be strings: `x || ""` keeps any truthy `x`. */
  datatype ContractInfo = ContractInfo(
    contractName: JsonValue, compiler: JsonValue, optimization: JsonValue, runs: JsonValue,
    evmVersion: JsonValue, creationCode: JsonValue, deployedBytecode: JsonValue,
    implementation: JsonValue, creator: JsonValue, creationTxHash: JsonValue)

  datatype Outcome = Refused(status: int, error: string) | Info(info: ContractInfo)

  const MISSING_PARAMS := "Missing address or chain"
  const FETCH_FAILED := "Failed to fetch contract info"
  const DEFAULT_KEY := "YourApiKeyToken"

  /** The explorer found the contract's creation: status `"1"` and a truthy
      first entry in a `result` array. */
  predicate Created(creationData: JsonValue) {
    OptField(creationData, "status") == Str("1") && OptField(creationData, "result").Arr?
    && Truthy(Index(OptField(creationData, "result"), 0).value)
  }

  /** The creation record, when there is one. */
  function CreationRecord(creationData: JsonValue): JsonValue {
    if Created(creationData) then Index(OptField(creationData, "result"), 0).value else Missing
  }

  /** The reply for the chains with an Etherscan-compatible explorer, from
      the three explorer replies; `None` where reading one of them throws.
      Each field is the explorer's value when it is truthy and the route's
      default otherwise; the creation fields are empty when the creation
      query found nothing. */
  function ExplorerInfo(bytecodeData: JsonValue, creationData: JsonValue, sourceData: JsonValue): (r: Option<ContractInfo>)
    ensures r.None? <==> (bytecodeData.Missing? || bytecodeData.Null? || creationData.Missing? || creationData.Null?
                          || sourceData.Missing? || sourceData.Null?)
    ensures r.Some? ==>
      var sr := SourceResult(sourceData);
      r.value.contractName == OrJs(OptField(sr, "ContractName"), Str(""))
      && r.value.compiler == OrJs(OptField(sr, "CompilerVersion"), Str(""))
      && r.value.optimization == Bool(OptField(sr, "OptimizationUsed") == Str("1"))
      && r.value.runs == Num(Runs(OptField(sr, "Runs"))) && r.value.runs.n != 0
      && r.value.evmVersion == OrJs(OptField(sr, "EVMVersion"), Str("default"))
      && r.value.implementation == OrJs(OptField(sr, "Implementation"), Null)
    ensures r.Some? ==> r.value.deployedBytecode == (if OptField(bytecodeData, "result").Str? then OptField(bytecodeData, "result") else Str(""))
    ensures r.Some? && Created(creationData) ==>
      var first := CreationRecord(creationData);
      r.value.creationCode == OrJs(OptField(first, "creationBytecode"), Str(""))
      && r.value.creator == OrJs(OptField(first, "contractCreator"), Str(""))
      && r.value.creationTxHash == OrJs(OptField(first, "txHash"), Str(""))
    ensures r.Some? && !Created(creationData) ==>
      r.value.creationCode == Str("") && r.value.creator == Str("") && r.value.creationTxHash == Str("")
  {
    if bytecodeData.Missing? || bytecodeData.Null? || creationData.Missing? || creationData.Null?
       || sourceData.Missing? || sourceData.Null? then None
    else
      var created := Created(creationData);
      var first := CreationRecord(creationData);
      var sr := SourceResult(sourceData);
      var bytecode := OptField(bytecodeData, "result");
      Some(ContractInfo(
        OrJs(OptField(sr, "ContractName"), Str("")),
        OrJs(OptField(sr, "CompilerVersion"), Str("")),
        Bool(OptField(sr, "OptimizationUsed") == Str("1")),
        Num(Runs(OptField(sr, "Runs"))),
        OrJs(OptField(sr, "EVMVersion"), Str("default")),
        if created then OrJs(OptField(first, "creationBytecode"), Str("")) else Str(""),
        if bytecode.Str? then bytecode else Str(""),
        OrJs(OptField(sr, "Implementation"), Null),
        if created then OrJs(OptField(first, "contractCreator"), Str("")) else Str(""),
        if created then OrJs(OptField(first, "txHash"), Str("")) else Str("")))
  }

  /** The first entry of the source reply's result, when it is an array. */
  function SourceResult(sourceData: JsonValue): JsonValue {
    var result := OptField(sourceData, "result");
    if result.Arr? then Index(result, 0).value else Null
  }

  /** Aurora's creation record is looked up with optional chaining: status
      `"1"` and a truthy first entry of a `result` that is not `null`. */
  predicate AuroraCreated(creationData: JsonValue) {
    var result := OptField(creationData, "result");
    OptField(creationData, "status") == Str("1") && !result.Missing? && !result.Null? && Truthy(Index(result, 0).value)
  }

  /** The Aurora reply, from Blockscout's contract record and the explorer's
      creation record; `None` where reading them throws: on a missing
      record, or on a proxy without an `implementations` list. Each field is
      Blockscout's value when truthy and the route's default otherwise; the
      creator and transaction are the creation record's, taken as they are. */
  function AuroraInfo(data: JsonValue, creationData: JsonValue): (r: Option<ContractInfo>)
    ensures r.None? <==> (data.Missing? || data.Null? || creationData.Missing? || creationData.Null?
      || (Truthy(OptField(data, "proxy_type")) && (OptField(data, "implementations").Missing? || OptField(data, "implementations").Null?)))
    ensures r.Some? ==>
      r.value.contractName == OrJs(OptField(data, "name"), Str(""))
      && r.value.compiler == OrJs(OptField(data, "compiler_version"), Str(""))
      && r.value.optimization == OrJs(OptField(data, "optimization_enabled"), Bool(false))
      && r.value.runs == OrJs(OptField(data, "optimization_runs"), Num(200))
      && r.value.evmVersion == OrJs(OptField(data, "evm_version"), Str("default"))
      && r.value.creationCode == OrJs(OptField(data, "creation_bytecode"), Str(""))
      && r.value.deployedBytecode == OrJs(OptField(data, "deployed_bytecode"), Str(""))
    ensures r.Some? && !Truthy(OptField(data, "proxy_type")) ==> r.value.implementation == Null
    ensures r.Some? && Truthy(OptField(data, "proxy_type")) ==>
      r.value.implementation == Index(OptField(data, "implementations"), 0).value
    ensures r.Some? && AuroraCreated(creationData) ==>
      var first := Index(OptField(creationData, "result"), 0).value;
      r.value.creator == OptField(first, "contractCreator") && r.value.creationTxHash == OptField(first, "txHash")
    ensures r.Some? && !AuroraCreated(creationData) ==> r.value.creator == Str("") && r.value.creationTxHash == Str("")
  {
    if data.Missing? || data.Null? || creationData.Missing? || creationData.Null? then None
    else
      var implementation :=
        if Truthy(OptField(data, "proxy_type")) then Index(OptField(data, "implementations"), 0) else Some(Null);
      if implementation.None? then None
      else
        var created := AuroraCreated(creationData);
        var first := if created then Index(OptField(creationData, "result"), 0).value else Missing;
        Some(ContractInfo(
          OrJs(OptField(data, "name"), Str("")),
          OrJs(OptField(data, "compiler_version"), Str("")),
          OrJs(OptField(data, "optimization_enabled"), Bool(false)),
          OrJs(OptField(data, "optimization_runs"), Num(200)),
          OrJs(OptField(data, "evm_version"), Str("default")),
          OrJs(OptField(data, "creation_bytecode"), Str("")),
          OrJs(OptField(data, "deployed_bytecode"), Str("")),
          implementation.value,
          if created then OptField(first, "contractCreator") else Str(""),
          if created then OptField(first, "txHash") else Str("")))
  }

  /** The three queries, each with the key set last. */
  function BytecodeParams(address: string, key: string): Params {
    SetParam([("module", "proxy"), ("action", "eth_getCode"), ("address", address), ("tag", "latest")], "apikey", key)
  }

  function CreationParams(address: string, key: string): Params {
    SetParam([("module", "contract"), ("action", "getcontractcreation"), ("contractaddresses", address)], "apikey", key)
  }

  function SourceParams(address: string, key: string): Params {
    SetParam([("module", "contract"), ("action", "getsourcecode"), ("address", address)], "apikey", key)
  }

  /** The key sent: the chain's, or the placeholder. */
  function EffectiveKey(cfg: ScanConfig): string {
    if cfg.apiKey != "" then cfg.apiKey else DEFAULT_KEY
  }

  /** Blockscout's record of the contract. */
  function AuroraRequest(address: string): Request {
    Request("https://explorer.mainnet.aurora.dev/api/v2/smart-contracts/" + address, [])
  }

  /** The creation query on Aurora, sent once, to the V1 URL. */
  function AuroraCreationRequest(cfg: ScanConfig, address: string): Request {
    Request(cfg.url, [("module", "contract"), ("action", "getcontractcreation"), ("contractaddresses", address), ("apikey", EffectiveKey(cfg))])
  }

  /** The reply for a chain other than Aurora, from the three explorer
      queries in the route's order; `None` where one of them throws. */
  function ExplorerReply(address: string, cfg: ScanConfig, fetch: Request -> Option<JsonValue>): Option<ContractInfo> {
    var key := EffectiveKey(cfg);
    var bytecode := FetchExplorer(cfg, BytecodeParams(address, key), fetch).1;
    var creation := FetchExplorer(cfg, CreationParams(address, key), fetch).1;
    var source := FetchExplorer(cfg, SourceParams(address, key), fetch).1;
    if bytecode.None? || creation.None? || source.None? then None
    else ExplorerInfo(bytecode.value, creation.value, source.value)
  }

  /** The reply for Aurora; `None` where a request or a read throws. */
  function AuroraReply(address: string, cfg: ScanConfig, fetch: Request -> Option<JsonValue>): Option<ContractInfo> {
    var data := fetch(AuroraRequest(address));
    var creation := fetch(AuroraCreationRequest(cfg, address));
    if data.None? || creation.None? then None else AuroraInfo(data.value, creation.value)
  }

  /** `GET`: `cfg` is what the chain's settings give for `chain`, `fetch`
      the network (`None` where a request or its decoding throws). Without
      both parameters the answer is 400; otherwise Aurora is read from
      Blockscout and every other chain from its explorer, and anything that
      throws on the way answers 500. */
  function Get(address: Option<string>, chain: Option<string>, cfg: ScanConfig, fetch: Request -> Option<JsonValue>): (r: Outcome)
    ensures r.Refused? ==> r.status in {400, 500}
    ensures r == Refused(400, MISSING_PARAMS) <==> address.None? || address == Some("") || chain.None? || chain == Some("")
    ensures r.Refused? && r.status == 500 ==> r.error == FETCH_FAILED
    ensures address.Some? && address != Some("") && chain == Some("aurora") ==>
      var info := AuroraReply(address.value, cfg, fetch);
      (r.Info? <==> info.Some?) && (r.Info? ==> r.info == info.value)
    ensures address.Some? && address != Some("") && chain.Some? && chain.value !in {"", "aurora"} ==>
      var info := ExplorerReply(address.value, cfg, fetch);
      (r.Info? <==> info.Some?) && (r.Info? ==> r.info == info.value)
  {
    if address.None? || address == Some("") || chain.None? || chain == Some("") then Refused(400, MISSING_PARAMS)
    else
      var info :=
        if chain.value == "aurora" then AuroraReply(address.value, cfg, fetch)
        else ExplorerReply(address.value, cfg, fetch);
      if info.None? then Refused(500, FETCH_FAILED) else Info(info.value)
  }

  /** Without an explorer key the placeholder key is sent. */
  lemma PlaceholderKey(address: string)
    ensures Lookup(BytecodeParams(address, DEFAULT_KEY), "apikey") == Some(DEFAULT_KEY)
  {
  }
}

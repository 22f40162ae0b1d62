/**
 * The CRXcavator client (`src/crxcavator.py`): the report URL of an extension version, the gate on
 * the HTTP response, and the parsing of a report into a risk score, a risk level and the three
 * detail totals. The HTTP call is a parameter: a function from URL to response, whose body is
 * given both as text and as the value `json.loads` makes of it.
 */
module Crxcavator {
  import opened Python
  import opened Text

  const BaseUrl := "https://api.crxcavator.io/v1/report"

  /** `RiskDetail`: the `total` of each section as the report gives it. */
  datatype RiskDetail = RiskDetail(contentSecurityPolicy: Json, permissions: Json, webstore: Json)

  /** `RiskReport`. */
  datatype RiskReport = RiskReport(riskScore: int, riskLevel: string, detail: RiskDetail)

  /** What `requests.get` returns, as far as the client reads it. */
  datatype Response = Response(statusCode: int, text: string, json: Json)

  /** The band of a risk score: up to 377 Low, up to 478 Medium, above High. */
  function Level(score: int): (r: string)
    ensures r == "Low" <==> score <= 377
    ensures r == "Medium" <==> 377 < score <= 478
    ensures r == "High" <==> score > 478
    ensures r != "N/A"
  {
    if score <= 377 then "Low"
    else if score > 377 && score <= 478 then "Medium"
    else if score > 478 then "High"
    else "N/A"
  }

  /** The order of the bands. */
  function Severity(level: string): int
  {
    if level == "Low" then 0 else if level == "Medium" then 1 else 2
  }

  /** A higher score never gives a lower band. */
  lemma LevelMonotone(a: int, b: int)
    requires a <= b
    ensures Severity(Level(a)) <= Severity(Level(b))
  {
  }

  /**
   * `risk.get(section, {}).get('total', '')` on the risk dict: "" when the section or its total is
   * missing; a section present but not a dict has no `get`.
   */
  function SectionTotal(risk: seq<Member>, section: string): (r: Result<Json>)
    ensures !HasKey(risk, section) ==> r == Ok(JStr(""))
    ensures HasKey(risk, section) ==>
      var s := Lookup(risk, section).value;
      && (!s.JObj? ==> r == Err(AttributeError))
      && (s.JObj? && !HasKey(s.members, "total") ==> r == Ok(JStr("")))
      && (s.JObj? && HasKey(s.members, "total") ==> r == Ok(Lookup(s.members, "total").value))
  {
    Get(GetOr(risk, section, JObj([])), "total", JStr(""))
  }

  /** `RiskDetail.parse` on the risk dict. */
  function ParseDetail(risk: seq<Member>): (r: Result<RiskDetail>)
    ensures r.Ok? <==> SectionTotal(risk, "csp").Ok? && SectionTotal(risk, "permissions").Ok? && SectionTotal(risk, "webstore").Ok?
    ensures r.Ok? ==> r.value == RiskDetail(SectionTotal(risk, "csp").value, SectionTotal(risk, "permissions").value,
                                            SectionTotal(risk, "webstore").value)
  {
    var csp :- SectionTotal(risk, "csp");
    var perms :- SectionTotal(risk, "permissions");
    var ws :- SectionTotal(risk, "webstore");
    Ok(RiskDetail(csp, perms, ws))
  }

  /** `response.get('data').get('risk')`: each step needs a dict, and a missing key gives None. */
  function RiskOf(response: Json): (r: Result<Json>)
    ensures r.Ok? <==> response.JObj? && GetOr(response.members, "data", JNull).JObj?
    ensures r.Ok? ==> r.value == GetOr(GetOr(response.members, "data", JNull).members, "risk", JNull)
  {
    var data :- Get(response, "data", JNull);
    Get(data, "risk", JNull)
  }

  /** `RiskReport.parse`: the score is `int` of the risk's `total` (0 when missing), the level its band. */
  function ParseReport(response: Json): (r: Result<RiskReport>)
    ensures r.Ok? ==> r.value.riskLevel == Level(r.value.riskScore) && r.value.riskLevel in ["Low", "Medium", "High"]
    ensures r.Ok? ==>
      && RiskOf(response).Ok? && RiskOf(response).value.JObj?
      && var risk := RiskOf(response).value.members;
      && Number(GetOr(risk, "total", JNum(0))) == Ok(r.value.riskScore)
      && ParseDetail(risk) == Ok(r.value.detail)
    ensures RiskOf(response).Err? ==> r == Err(RiskOf(response).error)
    ensures RiskOf(response).Ok? && !RiskOf(response).value.JObj? ==> r == Err(AttributeError)
    ensures RiskOf(response).Ok? && RiskOf(response).value.JObj? ==>
      var risk := RiskOf(response).value.members;
      var score := Number(GetOr(risk, "total", JNum(0)));
      && (score.Err? ==> r == Err(score.error))
      && (score.Ok? && ParseDetail(risk).Err? ==> r == Err(ParseDetail(risk).error))
      && (score.Ok? && ParseDetail(risk).Ok? ==> r.Ok?)
  {
    var risk :- RiskOf(response);
    match risk
    case JObj(members) =>
      var score :- Number(GetOr(members, "total", JNum(0)));
      var level := Level(score);
      var detail :- ParseDetail(members);
      Ok(RiskReport(score, level, detail))
    case _ => Err(AttributeError)
  }

  /** A risk dict with no total and no sections gives score 0, band Low and three empty details. */
  lemma EmptyRiskIsLow(risk: seq<Member>)
    requires !HasKey(risk, "total") && !HasKey(risk, "csp") && !HasKey(risk, "permissions") && !HasKey(risk, "webstore")
    ensures ParseReport(JObj([Member("data", JObj([Member("risk", JObj(risk))]))]))
      == Ok(RiskReport(0, "Low", RiskDetail(JStr(""), JStr(""), JStr(""))))
  {
    var data := [Member("risk", JObj(risk))];
    var response := [Member("data", JObj(data))];
    LookupAt(data, 0);
    LookupAt(response, 0);
    assert RiskOf(JObj(response)) == Ok(JObj(risk));
  }

  /** A report without `data` fails: `None` has no `get`. */
  lemma MissingDataRaises(response: seq<Member>)
    requires !HasKey(response, "data")
    ensures ParseReport(JObj(response)) == Err(AttributeError)
  {
  }

  /** The report URL of one extension version on one platform. */
  function ReportUrl(extensionId: string, version: string, platform: string): (r: string)
    ensures BaseUrl + "/" <= r
  {
    BaseUrl + "/" + extensionId + "/" + version + "?platform=" + platform
  }

  /** A string with `sep` at position `|a|` does not start with a longer string `c` free of `sep`. */
  lemma SeparatorAt(a: string, b: string, c: string, sep: char)
    requires sep !in c && |a| < |c|
    ensures !(c <= a + [sep] + b)
  {
    assert (a + [sep] + b)[|a|] == sep;
  }

  /** Two strings cut at the first `sep`: the parts before and after it are determined. */
  lemma CutAtFirst(a: string, b: string, c: string, d: string, sep: char)
    requires sep !in a && sep !in c
    requires a + [sep] + b == c + [sep] + d
    ensures a == c && b == d
  {
    var s := a + [sep] + b;
    assert |a| == |c| by {
      if |a| < |c| {
        SeparatorAt(a, b, c, sep);
        assert false;
      } else if |c| < |a| {
        SeparatorAt(c, d, a, sep);
        assert false;
      }
    }
    assert a == s[..|a|];
    assert b == s[|a| + 1..];
  }

  /** The URL as the fixed prefix followed by the id, `/`, the version, `?` and the platform parameter. */
  lemma ReportUrlParts(extensionId: string, version: string, platform: string)
    ensures ReportUrl(extensionId, version, platform)
      == (BaseUrl + "/") + (extensionId + ['/'] + (version + ['?'] + ("platform=" + platform)))
  {
  }

  /** Ids and versions without `/` or `?` give distinct URLs to distinct lookups. */
  lemma ReportUrlInjective(id1: string, v1: string, p1: string, id2: string, v2: string, p2: string)
    requires '/' !in id1 && '/' !in id2 && '?' !in v1 && '?' !in v2
    requires ReportUrl(id1, v1, p1) == ReportUrl(id2, v2, p2)
    ensures id1 == id2 && v1 == v2 && p1 == p2
  {
    var prefix := BaseUrl + "/";
    var rest1 := id1 + ['/'] + (v1 + ['?'] + ("platform=" + p1));
    var rest2 := id2 + ['/'] + (v2 + ['?'] + ("platform=" + p2));
    ReportUrlParts(id1, v1, p1);
    ReportUrlParts(id2, v2, p2);
    assert rest1 == (prefix + rest1)[|prefix|..];
    assert rest2 == (prefix + rest2)[|prefix|..];
    CutAtFirst(id1, v1 + ['?'] + ("platform=" + p1), id2, v2 + ['?'] + ("platform=" + p2), '/');
    CutAtFirst(v1, "platform=" + p1, v2, "platform=" + p2, '?');
    assert p1 == ("platform=" + p1)[9..];
    assert p2 == ("platform=" + p2)[9..];
  }

  /** The gate of `get_risk_report`: a report is parsed only for status 200 and a body other than `null`. */
  function Gate(response: Response): (r: Result<Option<RiskReport>>)
    ensures r == Ok(None) <==> !(response.statusCode == 200 && response.text != "null\n")
    ensures r.Err? ==> ParseReport(response.json).Err? && r.error == ParseReport(response.json).error
    ensures r.Ok? && r.value.Some? ==> ParseReport(response.json) == Ok(r.value.value)
  {
    if response.statusCode == 200 && response.text != "null\n" then
      var report :- ParseReport(response.json);
      Ok(Some(report))
    else Ok(None)
  }

  /** `get_risk_report(extension_id, extension_version, extension_platform)` with `requests.get` as `fetch`. */
  function GetRiskReport(extensionId: string, version: string, platform: string, fetch: string -> Response)
    : (r: Result<Option<RiskReport>>)
    ensures r == Gate(fetch(ReportUrl(extensionId, version, platform)))
    ensures r.Ok? && r.value.Some? ==> r.value.value.riskLevel in ["Low", "Medium", "High"]
  {
    Gate(fetch(ReportUrl(extensionId, version, platform)))
  }
}

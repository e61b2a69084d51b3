/** The HTTP client's base URL: the configured value, normalised, or the
    local development server, followed by `/api`. */
module ApiClient {
  import opened JsValue
  import opened JsString

  /** The server used when no base URL is configured. */
  const DefaultApiBase: string := "http://localhost:5000"

  /** The configured value, trimmed; an absent value reads as empty. */
  function Trimmed(url: Option<string>): string {
    Trim(OrElse(url, ""))
  }

  /** `normalizeBaseUrl`: the trimmed value with one trailing `/` removed. */
  function NormalizeBaseUrl(url: Option<string>): (r: string)
    ensures StartsWith(Trimmed(url), r)
    ensures !EndsWithChar(Trimmed(url), '/') ==> r == Trimmed(url)
    ensures EndsWithChar(Trimmed(url), '/') ==> |r| == |Trimmed(url)| - 1
  {
    var raw := Trimmed(url);
    if raw == "" then ""
    else if EndsWithChar(raw, '/') then raw[..|raw| - 1]
    else raw
  }

  /** An absent or all-whitespace value normalises to the empty string. */
  lemma BlankValueNormalisesEmpty(url: Option<string>)
    requires forall j :: 0 <= j < |OrElse(url, "")| ==> IsSpace(OrElse(url, "")[j])
    ensures NormalizeBaseUrl(url) == ""
  {
  }

  /** Only one slash goes: a value ending in two keeps the second, so
      normalising is not idempotent. */
  lemma OneSlashRemoved()
    ensures NormalizeBaseUrl(Some("h//")) == "h/"
    ensures NormalizeBaseUrl(Some(NormalizeBaseUrl(Some("h//")))) == "h"
  {
    NormalizeTrimmedValue("h//");
    assert "h//"[..2] == "h/";
    NormalizeTrimmedValue("h/");
    assert "h/"[..1] == "h";
  }

  /** For a value with no surrounding whitespace only the slash rule
      applies. */
  lemma NormalizeTrimmedValue(u: string)
    requires u != "" && !IsSpace(u[0]) && !IsSpace(u[|u| - 1])
    ensures EndsWithChar(u, '/') ==> NormalizeBaseUrl(Some(u)) == u[..|u| - 1]
    ensures !EndsWithChar(u, '/') ==> NormalizeBaseUrl(Some(u)) == u
  {
    TrimUnchanged(u);
  }

  /** `apiBase`: the normalised value, or the default server when it is
      empty. */
  function ApiBase(env: Option<string>): (r: string)
    ensures r != ""
    ensures NormalizeBaseUrl(env) != "" ==> r == NormalizeBaseUrl(env)
    ensures NormalizeBaseUrl(env) == "" ==> r == DefaultApiBase
  {
    var n := NormalizeBaseUrl(env);
    if n != "" then n else DefaultApiBase
  }

  /** A lone slash normalises to the empty string, so the default server
      is used. */
  lemma SlashAloneFallsBack()
    ensures NormalizeBaseUrl(Some("/")) == ""
    ensures ApiBase(Some("/")) == DefaultApiBase
  {
    NormalizeTrimmedValue("/");
  }

  const ApiSuffix: string := "/api"

  /** `baseURL`: the API base followed by `/api`. */
  function BaseUrl(env: Option<string>): (r: string)
    ensures |r| == |ApiBase(env)| + |ApiSuffix|
    ensures r[..|ApiBase(env)|] == ApiBase(env) && r[|ApiBase(env)|..] == ApiSuffix
  {
    ApiBase(env) + ApiSuffix
  }

  /** Unless the trimmed value ends in two slashes, the base URL has a
      single slash before `api`. */
  lemma SingleSlashBeforeApi(env: Option<string>)
    requires var t := Trimmed(env); !(|t| >= 2 && t[|t| - 2..] == "//")
    ensures var r := BaseUrl(env); r[|r| - 5] != '/'
  {
    var t := Trimmed(env);
    var n := NormalizeBaseUrl(env);
    var b := ApiBase(env);
    var r := BaseUrl(env);
    assert r[|r| - 5] == b[|b| - 1];
    if n != "" {
      assert n == t[..|n|];
      if EndsWithChar(t, '/') {
        assert t[|t| - 2..] == [t[|t| - 2], t[|t| - 1]];
      }
    }
  }

  /** A trimmed value ending in two slashes leaves one of them before
      `api`. */
  lemma DoubleSlashSurvives()
    ensures BaseUrl(Some("h//")) == "h//api"
  {
    OneSlashRemoved();
  }
}

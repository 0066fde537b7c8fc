/** The allowed CORS origins (`get_cors_origins` in pdf3md/config.py). The
    value of the `ALLOWED_CORS_ORIGINS` environment variable is a parameter;
    the result is a set, as the source deduplicates through `set` (the order
    of the list it returns is not modelled). */
module Cors {
  import opened Wrappers
  import opened Text

  /** The origins always allowed. */
  const DefaultOrigins: set<string> := {
    "http://localhost:5173",
    "http://localhost:3000",
    "http://127.0.0.1:5173",
    "http://127.0.0.1:3000",
    "*"
  }

  /** The ports each custom origin is also allowed on. */
  const Ports: seq<string> := [":3000", ":5173", ":6201"]

  /** The text before the first line feed (what `.*` matches). */
  function FirstLine(s: string): (r: string)
    ensures r <= s && '\n' !in r
    ensures '\n' !in s ==> r == s
    ensures |r| < |s| ==> s[|r|] == '\n'
  {
    if |s| == 0 || s[0] == '\n' then "" else [s[0]] + FirstLine(s[1..])
  }

  /** `re.match(r"(https?://)?(.*)", origin)`: the scheme, `http://` when
      there is none, and the rest of the first line. */
  function SchemeAndHost(origin: string): (r: (string, string))
    ensures r.0 == "https://" || r.0 == "http://"
    ensures "https://" <= origin ==> r == ("https://", FirstLine(origin[8..]))
    ensures !("https://" <= origin) && "http://" <= origin ==> r == ("http://", FirstLine(origin[7..]))
    ensures !("https://" <= origin) && !("http://" <= origin) ==> r == ("http://", FirstLine(origin))
  {
    if |origin| >= 8 && origin[..8] == "https://" then ("https://", FirstLine(origin[8..]))
    else if |origin| >= 7 && origin[..7] == "http://" then ("http://", FirstLine(origin[7..]))
    else ("http://", FirstLine(origin))
  }

  /** One custom origin and its three port variants. */
  function Expansions(origin: string): set<string> {
    var (scheme, host) := SchemeAndHost(origin);
    {origin} + set port | port in Ports :: scheme + host + port
  }

  /** The custom origins: the comma-separated pieces, stripped. */
  function CustomOrigins(env: string): (r: seq<string>)
    ensures |r| == |Split(env, ',')|
    ensures forall i :: 0 <= i < |r| ==> r[i] == Strip(Split(env, ',')[i])
  {
    var pieces := Split(env, ',');
    seq(|pieces|, i requires 0 <= i < |pieces| => Strip(pieces[i]))
  }

  /** Every expansion of every origin. */
  function ExpandAll(origins: seq<string>): (r: set<string>)
    ensures forall i :: 0 <= i < |origins| ==> Expansions(origins[i]) <= r
    ensures forall x :: x in r ==> exists i :: 0 <= i < |origins| && x in Expansions(origins[i])
  {
    set i, x | 0 <= i < |origins| && x in Expansions(origins[i]) :: x
  }

  /** `get_cors_origins()` with the environment value passed in. */
  function CorsOrigins(env: Option<string>): (r: set<string>)
    ensures DefaultOrigins <= r
    ensures env.None? || env.value == "" ==> r == DefaultOrigins
  {
    if env.Some? && env.value != "" then DefaultOrigins + ExpandAll(CustomOrigins(env.value))
    else DefaultOrigins
  }

  /** Exactly the defaults and the expansions of the custom origins are allowed. */
  lemma CorsOriginsExactly(env: string, x: string)
    requires env != ""
    ensures x in CorsOrigins(Some(env)) <==>
      x in DefaultOrigins || exists i :: 0 <= i < |CustomOrigins(env)| && x in Expansions(CustomOrigins(env)[i])
  {
  }

  /** Every piece of the variable, stripped, is allowed, on its own and on
      the three ports. */
  lemma CustomOriginAllowed(env: string, i: nat)
    requires env != "" && i < |Split(env, ',')|
    ensures var origin := Strip(Split(env, ',')[i]);
      var (scheme, host) := SchemeAndHost(origin);
      origin in CorsOrigins(Some(env))
      && scheme + host + ":3000" in CorsOrigins(Some(env))
      && scheme + host + ":5173" in CorsOrigins(Some(env))
      && scheme + host + ":6201" in CorsOrigins(Some(env))
  {
    var origins := CustomOrigins(env);
    var origin := origins[i];
    var (scheme, host) := SchemeAndHost(origin);
    assert Ports[0] == ":3000" && Ports[1] == ":5173" && Ports[2] == ":6201";
    assert scheme + host + Ports[0] in Expansions(origin);
    assert scheme + host + Ports[1] in Expansions(origin);
    assert scheme + host + Ports[2] in Expansions(origin);
  }

  /** A bare host gets the `http://` scheme. */
  lemma BareHostGetsHttp(host: string)
    requires |host| > 0 && '\n' !in host && ',' !in host
    requires !IsSpace(host[0]) && !IsSpace(host[|host| - 1])
    requires !("http://" <= host) && !("https://" <= host)
    ensures "http://" + host + ":3000" in CorsOrigins(Some(host))
  {
    SplitNoSep(host, ',');
    StripUnpadded(host);
    CustomOriginAllowed(host, 0);
  }
}

/** The configuration values the bot derives from its environment when
    its `cfg` module is loaded: the database URLs, the test-guild list,
    the debug trigger flag, the control server id, the HTTP port and the
    parameters handed to the bot framework. The environment is a map from
    variable names to their values; a name that is not a key is unset. */
module Cfg {
  import opened Base
  import opened Text

  type Env = map<string, string>

  datatype CfgError =
    | Unset(name: string)                      // a required variable is missing
    | NotAnInt(name: string, value: string)    // `int(...)` raised ValueError

  /** `_getenv(name)` */
  function Getenv(env: Env, name: string): Option<string> {
    if name in env then Some(env[name]) else None
  }

  /** `_getenv(name) or fallback`: an unset or empty variable falls back. */
  function GetenvOr(env: Env, name: string, fallback: string): (r: string)
    ensures name in env && env[name] != "" ==> r == env[name]
    ensures !(name in env && env[name] != "") ==> r == fallback
  {
    match Getenv(env, name)
    case Some(v) => if v != "" then v else fallback
    case None => fallback
  }

  // ---------------------------------------------------------------------
  // Database URLs
  // ---------------------------------------------------------------------

  datatype DbUrls = DbUrls(dbUrl: string, dbUrlAsync: Option<string>)

  /** The part of a `postgres...` URL that is kept: from the first `://`
      on. When there is none, `find` answers -1 and the slice keeps the last
      character only. */
  function KeptSuffix(url: string): (s: string)
    requires url != []
    ensures Find(url, "://") >= 0 ==> StartsWith(s, "://") && s == url[Find(url, "://")..]
    ensures Find(url, "://") == -1 ==> s == [url[|url| - 1]]
  {
    SliceFrom(url, Find(url, "://"))
  }

  /** The rewrite of `DATABASE_URL`: a URL starting with `postgres` gets the
      scheme `postgresql` (and `postgresql+asyncpg` for the async engine);
      any other URL is kept and no async URL is defined. */
  function RewriteDbUrl(url: string): (r: DbUrls)
    ensures !StartsWith(url, "postgres") ==> r == DbUrls(url, None)
    ensures StartsWith(url, "postgres") ==>
      r.dbUrlAsync.Some?
      && StartsWith(r.dbUrl, "postgresql")
      && StartsWith(r.dbUrlAsync.value, "postgresql+asyncpg")
      && r.dbUrl[10..] == r.dbUrlAsync.value[18..] == KeptSuffix(url)
  {
    if StartsWith(url, "postgres") then
      var rest := KeptSuffix(url);
      DbUrls("postgresql" + rest, Some("postgresql+asyncpg" + rest))
    else DbUrls(url, None)
  }

  /** `DATABASE_URL` read and rewritten; unset, `startswith` raises on None. */
  function DbUrlsFrom(env: Env): (r: Result<DbUrls, CfgError>)
    ensures r.Err? <==> "DATABASE_URL" !in env
    ensures r.Ok? ==> r.value == RewriteDbUrl(env["DATABASE_URL"])
  {
    match Getenv(env, "DATABASE_URL")
    case None => Err(Unset("DATABASE_URL"))
    case Some(url) => Ok(RewriteDbUrl(url))
  }

  /** No letter of the scheme prefix is a colon, so `://` cannot start inside it. */
  lemma FirstSeparatorAfterScheme(prefix: string, rest: string)
    requires ':' !in prefix
    ensures Find(prefix + rest, "://") == -1 <==> Find(rest, "://") == -1
    ensures Find(rest, "://") >= 0 ==> Find(prefix + rest, "://") == |prefix| + Find(rest, "://")
  {
    var s := prefix + rest;
    forall j | 0 <= j < |prefix| ensures !OccursAt(s, "://", j) {
      assert s[j] == prefix[j] != ':';
      if j + 3 <= |s| {
        assert s[j..j + 3][0] == s[j];
      }
    }
    forall j | |prefix| <= j <= |s| ensures OccursAt(s, "://", j) <==> OccursAt(rest, "://", j - |prefix|) {
      if j + 3 <= |s| {
        assert s[j..j + 3] == rest[j - |prefix|..j - |prefix| + 3];
      }
    }
    var k := Find(rest, "://");
    if k >= 0 {
      assert OccursAt(s, "://", |prefix| + k);
    } else {
      assert forall j :: |prefix| <= j <= |s| ==> !OccursAt(s, "://", j);
    }
  }

  /** Rewriting an already rewritten URL changes nothing: `postgresql://...`
      maps to itself. */
  lemma RewriteIdempotent(url: string)
    ensures RewriteDbUrl(RewriteDbUrl(url).dbUrl) == RewriteDbUrl(url)
  {
    if StartsWith(url, "postgres") {
      var rest := KeptSuffix(url);
      var once := "postgresql" + rest;
      assert StartsWith(once, "postgres") by { assert once[..8] == "postgres"; }
      FirstSeparatorAfterScheme("postgresql", rest);
      if Find(url, "://") >= 0 {
        assert OccursAt(rest, "://", 0);
        assert Find(rest, "://") == 0;
        assert once[10..] == rest;
      } else {
        assert |rest| == 1;
        assert !OccursAt(rest, "://", 0) && !OccursAt(rest, "://", 1);
        assert Find(rest, "://") == -1;
        assert once[|once| - 1] == rest[0];
      }
    }
  }

  /** A `postgres` URL with the separator right after the scheme keeps
      everything from the separator on. */
  lemma RewriteScheme(scheme: string, rest: string)
    requires StartsWith(scheme, "postgres") && ':' !in scheme
    requires StartsWith(rest, "://")
    ensures RewriteDbUrl(scheme + rest) == DbUrls("postgresql" + rest, Some("postgresql+asyncpg" + rest))
  {
    var url := scheme + rest;
    assert url[..8] == scheme[..8];
    assert OccursAt(rest, "://", 0);
    FirstSeparatorAfterScheme(scheme, rest);
    assert url[|scheme|..] == rest;
  }

  // ---------------------------------------------------------------------
  // TEST_ENV: the guilds commands are registered in while testing
  // ---------------------------------------------------------------------

  /** `test_env`: `False`, or the list of guild ids. */
  datatype TestEnv = Off | Guilds(ids: seq<int>)

  /** `int(piece.strip())` for one comma-separated piece. */
  function ParsePiece(piece: string): Option<int> {
    ParseInt(Strip(piece))
  }

  /** `[int(env.strip()) for env in pieces]`; None when some `int` raises. */
  function ParseAll(pieces: seq<string>): (r: Option<seq<int>>)
    ensures r.Some? <==> forall i :: 0 <= i < |pieces| ==> ParsePiece(pieces[i]).Some?
    ensures r.Some? ==> |r.value| == |pieces|
    ensures r.Some? ==> forall i :: 0 <= i < |pieces| ==> ParsePiece(pieces[i]) == Some(r.value[i])
  {
    TryMapSpec(pieces, ParsePiece);
    TryMap(pieces, ParsePiece)
  }

  /** The first piece `int` refuses. */
  function FirstBad(pieces: seq<string>): (p: string)
    requires exists i :: 0 <= i < |pieces| && ParsePiece(pieces[i]).None?
    ensures p in pieces && ParsePiece(p).None?
    ensures exists i :: 0 <= i < |pieces| && pieces[i] == p && forall j :: 0 <= j < i ==> ParsePiece(pieces[j]).Some?
  {
    var i := FirstFailing(pieces, ParsePiece);
    var p := pieces[i];
    assert ParsePiece(p).None? && forall j :: 0 <= j < i ==> ParsePiece(pieces[j]).Some?;
    assert exists k :: 0 <= k < |pieces| && pieces[k] == p && forall j :: 0 <= j < k ==> ParsePiece(pieces[j]).Some? by {
      assert 0 <= i < |pieces| && pieces[i] == p;
    }
    p
  }

  /** `test_env` from `TEST_ENV`: off when the variable is unset, empty or
      exactly `false`; otherwise one guild id per comma-separated piece. */
  function TestEnvFrom(env: Env): (r: Result<TestEnv, CfgError>)
    ensures r == Ok(Off) <==> GetenvOr(env, "TEST_ENV", "false") == "false"
    ensures r.Ok? && r.value.Guilds? ==>
      var pieces := Split(env["TEST_ENV"], ',');
      |r.value.ids| == Count(env["TEST_ENV"], ',') + 1
      && forall i :: 0 <= i < |pieces| ==> ParsePiece(pieces[i]) == Some(r.value.ids[i])
    ensures r.Ok? <==> GetenvOr(env, "TEST_ENV", "false") == "false"
                       || ParseAll(Split(GetenvOr(env, "TEST_ENV", "false"), ',')).Some?
    ensures r.Err? ==> r.error.NotAnInt? && r.error.name == "TEST_ENV"
  {
    var raw := GetenvOr(env, "TEST_ENV", "false");
    if raw == "false" then Ok(Off)
    else
      var pieces := Split(raw, ',');
      match ParseAll(pieces)
      case Some(ids) => Ok(Guilds(ids))
      case None => Err(NotAnInt("TEST_ENV", FirstBad(pieces)))
  }

  /** `",".join(str(i) for i in ids)` */
  function RenderIds(ids: seq<int>): (s: string)
    requires ids != []
  {
    Join(RenderEach(ids), ',')
  }

  function RenderEach(ids: seq<int>): (parts: seq<string>)
    ensures |parts| == |ids|
    ensures forall i :: 0 <= i < |ids| ==> parts[i] == ShowInt(ids[i])
  {
    if ids == [] then [] else [ShowInt(ids[0])] + RenderEach(ids[1..])
  }

  /** The rendered list splits back into the rendered ids, and starts with
      a digit or a minus sign. */
  lemma RenderIdsSplit(ids: seq<int>)
    requires ids != []
    ensures Split(RenderIds(ids), ',') == RenderEach(ids)
    ensures RenderIds(ids) != [] && (RenderIds(ids)[0] == '-' || IsDigit(RenderIds(ids)[0]))
  {
    var parts := RenderEach(ids);
    forall i | 0 <= i < |parts| ensures ',' !in parts[i] {
      ShowIntNoComma(ids[i]);
    }
    SplitJoin(parts, ',');
    var joined := Join(parts, ',');
    assert joined == RenderIds(ids);
    var first := parts[0];
    assert first == ShowInt(ids[0]);
    if |parts| > 1 {
      assert joined == first + [','] + Join(parts[1..], ',');
    }
    assert joined[0] == first[0];
    if ids[0] < 0 {
      assert first[0] == '-';
    } else {
      assert first == ShowNat(ids[0]);
      assert IsDigit(first[0]);
    }
  }

  /** Every rendered id is read back by `int`. */
  lemma ParseAllRendered(ids: seq<int>)
    ensures ParseAll(RenderEach(ids)) == Some(ids)
  {
    var parts := RenderEach(ids);
    forall i | 0 <= i < |parts| ensures ParsePiece(parts[i]) == Some(ids[i]) {
      StripNoSpace(parts[i]);
      ParseShow(ids[i]);
    }
    assert ParseAll(parts).Some?;
    var ns := ParseAll(parts).value;
    assert |ns| == |ids|;
    assert forall i :: 0 <= i < |ids| ==> ns[i] == ids[i] by {
      forall i | 0 <= i < |ids| ensures ns[i] == ids[i] {
        assert ParsePiece(parts[i]) == Some(ns[i]);
      }
    }
    assert ns == ids;
  }

  /** A non-empty list of guild ids written out comma-separated is read
      back as exactly that list. */
  lemma TestEnvRoundTrip(env: Env, ids: seq<int>)
    requires ids != []
    requires "TEST_ENV" in env && env["TEST_ENV"] == RenderIds(ids)
    ensures TestEnvFrom(env) == Ok(Guilds(ids))
  {
    RenderIdsSplit(ids);
    var raw := env["TEST_ENV"];
    assert raw != "false" by {
      assert "false"[0] == 'f';
    }
    assert GetenvOr(env, "TEST_ENV", "false") == raw;
    ParseAllRendered(ids);
  }

  lemma ShowIntNoComma(n: int)
    ensures ',' !in ShowInt(n)
  {
    var s := ShowInt(n);
    if n < 0 {
      assert s == "-" + ShowNat(-n);
      assert forall i :: 1 <= i < |s| ==> s[i] == ShowNat(-n)[i - 1];
    }
  }

  // ---------------------------------------------------------------------
  // Flags and ids
  // ---------------------------------------------------------------------

  /** `trigger_without_url_update`: true iff the variable, lowercased, is `true`. */
  function TriggerWithoutUrlUpdate(env: Env): (r: bool)
    ensures r <==> "TRIGGER_WITHOUT_URL_UPDATE" in env && Lower(env["TRIGGER_WITHOUT_URL_UPDATE"]) == "true"
  {
    var raw := GetenvOr(env, "TRIGGER_WITHOUT_URL_UPDATE", "false");
    assert Lower("false") == "false";
    Lower(raw) == "true"
  }

  /** `control_discord_server_id`: the control server's id when it is set
      and non-zero, else the Kyber server's id. The Kyber id is read first
      and must be present. */
  function ControlServerId(env: Env): (r: Result<int, CfgError>)
    ensures r.Err? <==>
      "KYBER_DISCORD_SERVER_ID" !in env
      || ParseInt(env["KYBER_DISCORD_SERVER_ID"]).None?
      || ("CONTROL_DISCORD_SERVER_ID" in env && ParseInt(env["CONTROL_DISCORD_SERVER_ID"]).None?)
    ensures (r.Ok? && "CONTROL_DISCORD_SERVER_ID" in env
             && ParseInt(env["CONTROL_DISCORD_SERVER_ID"]) != Some(0)) ==>
      Some(r.value) == ParseInt(env["CONTROL_DISCORD_SERVER_ID"]) && r.value != 0
    ensures (r.Ok? && ("CONTROL_DISCORD_SERVER_ID" !in env
             || ParseInt(env["CONTROL_DISCORD_SERVER_ID"]) == Some(0))) ==>
      Some(r.value) == ParseInt(env["KYBER_DISCORD_SERVER_ID"])
  {
    match Getenv(env, "KYBER_DISCORD_SERVER_ID")
    case None => Err(Unset("KYBER_DISCORD_SERVER_ID"))
    case Some(k) =>
      match ParseInt(k)
      case None => Err(NotAnInt("KYBER_DISCORD_SERVER_ID", k))
      case Some(kyber) =>
        var control :=
          match Getenv(env, "CONTROL_DISCORD_SERVER_ID")
          case None => Ok(0)
          case Some(c) => (match ParseInt(c)
                           case None => Err(NotAnInt("CONTROL_DISCORD_SERVER_ID", c))
                           case Some(v) => Ok(v));
        match control
        case Err(e) => Err(e)
        case Ok(c) => Ok(if c != 0 then c else kyber)
  }

  /** `port`: 5000 when `PORT` is unset or empty, else its integer value. */
  function Port(env: Env): (r: Result<int, CfgError>)
    ensures ("PORT" !in env || env["PORT"] == "") ==> r == Ok(5000)
    ensures "PORT" in env && env["PORT"] != "" ==>
      (r.Ok? <==> ParseInt(env["PORT"]).Some?) && (r.Ok? ==> Some(r.value) == ParseInt(env["PORT"]))
  {
    var raw := GetenvOr(env, "PORT", "");
    if raw == "" then Ok(5000)
    else match ParseInt(raw)
      case None => Err(NotAnInt("PORT", raw))
      case Some(p) => Ok(p)
  }

  /** A port written out in decimal is read back as that port. */
  lemma PortRoundTrip(env: Env, p: int)
    requires "PORT" in env && env["PORT"] == ShowInt(p)
    ensures Port(env) == Ok(p)
  {
    ParseShow(p);
  }

  // ---------------------------------------------------------------------
  // Bot framework parameters
  // ---------------------------------------------------------------------

  datatype LightbulbParams = LightbulbParams(token: Option<string>, defaultEnabledGuilds: Option<seq<int>>)

  /** Python truthiness of `test_env`: `False` and the empty list are falsy. */
  predicate Truthy(t: TestEnv) {
    t.Guilds? && t.ids != []
  }

  /** `lightbulb_params`: the guild list is passed only when `test_env` is truthy. */
  function LightbulbParamsFor(token: Option<string>, testEnv: TestEnv): (r: LightbulbParams)
    ensures r.token == token
    ensures r.defaultEnabledGuilds.Some? <==> Truthy(testEnv)
    ensures r.defaultEnabledGuilds.Some? ==> testEnv == Guilds(r.defaultEnabledGuilds.value)
  {
    if Truthy(testEnv) then LightbulbParams(token, Some(testEnv.ids)) else LightbulbParams(token, None)
  }

  /** A parsed guild list is never empty, so the guilds are passed to the
      framework exactly when `TEST_ENV` turns testing on. */
  lemma GuildsPassedIffTesting(env: Env, token: Option<string>)
    requires TestEnvFrom(env).Ok?
    ensures LightbulbParamsFor(token, TestEnvFrom(env).value).defaultEnabledGuilds.Some?
      <==> TestEnvFrom(env).value.Guilds?
  {
  }

  // ---------------------------------------------------------------------
  // Required variables
  // ---------------------------------------------------------------------

  /** `int(_getenv(name))`: unset, `int(None)` raises; otherwise the value
      must be an integer literal. */
  function RequiredInt(env: Env, name: string): (r: Result<int, CfgError>)
    ensures r.Ok? <==> name in env && ParseInt(env[name]).Some?
    ensures r.Ok? ==> Some(r.value) == ParseInt(env[name])
    ensures r.Err? ==> r.error.name == name && (r.error.Unset? <==> name !in env)
  {
    match Getenv(env, name)
    case None => Err(Unset(name))
    case Some(v) =>
      match ParseInt(v)
      case None => Err(NotAnInt(name, v))
      case Some(n) => Ok(n)
  }

  /** `disable_bad_channels`: `.lower()` raises on an unset variable; a
      set one turns the option on iff it lowercases to `true`. */
  function DisableBadChannels(env: Env): (r: Result<bool, CfgError>)
    ensures r.Err? <==> "DISABLE_BAD_CHANNELS" !in env
    ensures r.Err? ==> r.error == Unset("DISABLE_BAD_CHANNELS")
    ensures r.Ok? ==> (r.value <==> Lower(env["DISABLE_BAD_CHANNELS"]) == "true")
  {
    match Getenv(env, "DISABLE_BAD_CHANNELS")
    case None => Err(Unset("DISABLE_BAD_CHANNELS"))
    case Some(v) => Ok(Lower(v) == "true")
  }

  /** The Sheets private key with its escaped newlines restored; `.replace`
      raises on an unset variable. */
  function SheetsPrivateKey(env: Env): (r: Result<string, CfgError>)
    ensures r.Err? <==> "SHEETS_PRIVATE_KEY" !in env
    ensures r.Err? ==> r.error == Unset("SHEETS_PRIVATE_KEY")
    ensures r.Ok? ==> r.value == UnescapeNewlines(env["SHEETS_PRIVATE_KEY"])
  {
    match Getenv(env, "SHEETS_PRIVATE_KEY")
    case None => Err(Unset("SHEETS_PRIVATE_KEY"))
    case Some(v) => Ok(UnescapeNewlines(v))
  }

  // ---------------------------------------------------------------------
  // Loading the module
  // ---------------------------------------------------------------------

  /** The values derived above, in the order the module computes them. */
  datatype Config = Config(
    db: DbUrls,
    testEnv: TestEnv,
    triggerWithoutUrlUpdate: bool,
    adminRole: int,
    alertsChannelId: int,
    controlServerId: int,
    disableBadChannels: bool,
    lsFollowChannelId: int,
    xurFollowChannelId: int,
    resetFollowChannelId: int,
    sheetsPrivateKey: string,
    lightbulbParams: LightbulbParams,
    port: int)

  function ErrorOf<T>(r: Result<T, CfgError>): (e: Option<CfgError>)
    ensures e.None? <==> r.Ok?
    ensures r.Err? ==> e == Some(r.error)
  {
    if r.Err? then Some(r.error) else None
  }

  /** What line `k` of the module's lines that can raise raises, in line
      order: `DATABASE_URL`, `TEST_ENV`, `ADMIN_ROLE`, `ALERTS_CHANNEL_ID`,
      the Kyber and control server ids, `DISABLE_BAD_CHANNELS`, the three
      follow channel ids, `SHEETS_PRIVATE_KEY` and `PORT`. */
  function LineError(env: Env, k: nat): Option<CfgError>
    requires k < LINES
  {
    match k
    case 0 => ErrorOf(DbUrlsFrom(env))
    case 1 => ErrorOf(TestEnvFrom(env))
    case 2 => ErrorOf(RequiredInt(env, "ADMIN_ROLE"))
    case 3 => ErrorOf(RequiredInt(env, "ALERTS_CHANNEL_ID"))
    case 4 => ErrorOf(ControlServerId(env))
    case 5 => ErrorOf(DisableBadChannels(env))
    case 6 => ErrorOf(RequiredInt(env, "LS_FOLLOW_CHANNEL_ID"))
    case 7 => ErrorOf(RequiredInt(env, "XUR_FOLLOW_CHANNEL_ID"))
    case 8 => ErrorOf(RequiredInt(env, "RESET_FOLLOW_CHANNEL_ID"))
    case 9 => ErrorOf(SheetsPrivateKey(env))
    case _ => ErrorOf(Port(env))
  }

  const LINES: nat := 11

  /** The error of the first line from `k` on that raises: the exception
      that stops the import once lines before `k` went through. */
  function FirstErrorFrom(env: Env, k: nat): Option<CfgError>
    requires k <= LINES
    decreases LINES - k
  {
    if k == LINES then None
    else if LineError(env, k).Some? then LineError(env, k)
    else FirstErrorFrom(env, k + 1)
  }

  /** The import fails iff some line from `k` on raises, and then with the
      error of the first one that does. */
  lemma {:induction false} FirstErrorFromSpec(env: Env, k: nat)
    requires k <= LINES
    ensures FirstErrorFrom(env, k).None? <==> forall j :: k <= j < LINES ==> LineError(env, j).None?
    ensures FirstErrorFrom(env, k).Some? ==>
      exists j :: k <= j < LINES && LineError(env, j) == FirstErrorFrom(env, k)
                  && forall i :: k <= i < j ==> LineError(env, i).None?
    decreases LINES - k
  {
    if k < LINES {
      FirstErrorFromSpec(env, k + 1);
    }
  }

  /** Loading the module, line by line: the first line that raises decides
      the error; otherwise every value is derived from its variable. */
  function Load(env: Env): (r: Result<Config, CfgError>)
    ensures r.Ok? <==> FirstErrorFrom(env, 0).None?
    ensures r.Err? ==> Some(r.error) == FirstErrorFrom(env, 0)
    ensures r.Ok? ==> r.value.lightbulbParams.token == Getenv(env, "MAIN_TOKEN")
    ensures r.Ok? ==> (r.value.lightbulbParams.defaultEnabledGuilds.Some? <==> r.value.testEnv.Guilds?)
  {
    var db := DbUrlsFrom(env);
    var testEnv := TestEnvFrom(env);
    var adminRole := RequiredInt(env, "ADMIN_ROLE");
    var alerts := RequiredInt(env, "ALERTS_CHANNEL_ID");
    var control := ControlServerId(env);
    var disable := DisableBadChannels(env);
    var ls := RequiredInt(env, "LS_FOLLOW_CHANNEL_ID");
    var xur := RequiredInt(env, "XUR_FOLLOW_CHANNEL_ID");
    var reset := RequiredInt(env, "RESET_FOLLOW_CHANNEL_ID");
    var key := SheetsPrivateKey(env);
    var port := Port(env);
    if db.Err? then Err(db.error)
    else if testEnv.Err? then Err(testEnv.error)
    else if adminRole.Err? then Err(adminRole.error)
    else if alerts.Err? then Err(alerts.error)
    else if control.Err? then Err(control.error)
    else if disable.Err? then Err(disable.error)
    else if ls.Err? then Err(ls.error)
    else if xur.Err? then Err(xur.error)
    else if reset.Err? then Err(reset.error)
    else if key.Err? then Err(key.error)
    else if port.Err? then Err(port.error)
    else
      Ok(Config(db.value, testEnv.value, TriggerWithoutUrlUpdate(env), adminRole.value, alerts.value,
                control.value, disable.value, ls.value, xur.value, reset.value, key.value,
                LightbulbParamsFor(Getenv(env, "MAIN_TOKEN"), testEnv.value), port.value))
  }

  /** A loaded configuration holds each variable's value as its line derives it. */
  lemma LoadedValues(env: Env)
    requires Load(env).Ok?
    ensures var c := Load(env).value;
      Some(c.adminRole) == ParseInt(env["ADMIN_ROLE"])
      && Some(c.alertsChannelId) == ParseInt(env["ALERTS_CHANNEL_ID"])
      && Some(c.lsFollowChannelId) == ParseInt(env["LS_FOLLOW_CHANNEL_ID"])
      && Some(c.xurFollowChannelId) == ParseInt(env["XUR_FOLLOW_CHANNEL_ID"])
      && Some(c.resetFollowChannelId) == ParseInt(env["RESET_FOLLOW_CHANNEL_ID"])
      && (c.disableBadChannels <==> Lower(env["DISABLE_BAD_CHANNELS"]) == "true")
      && c.sheetsPrivateKey == UnescapeNewlines(env["SHEETS_PRIVATE_KEY"])
    ensures var c := Load(env).value;
      c.db == RewriteDbUrl(env["DATABASE_URL"])
      && c.testEnv == TestEnvFrom(env).value
      && c.triggerWithoutUrlUpdate == TriggerWithoutUrlUpdate(env)
      && c.controlServerId == ControlServerId(env).value
      && c.port == Port(env).value
      && c.lightbulbParams == LightbulbParamsFor(Getenv(env, "MAIN_TOKEN"), c.testEnv)
  {
    var ok := DbUrlsFrom(env).Ok? && TestEnvFrom(env).Ok? && RequiredInt(env, "ADMIN_ROLE").Ok?
      && RequiredInt(env, "ALERTS_CHANNEL_ID").Ok? && ControlServerId(env).Ok? && DisableBadChannels(env).Ok?
      && RequiredInt(env, "LS_FOLLOW_CHANNEL_ID").Ok? && RequiredInt(env, "XUR_FOLLOW_CHANNEL_ID").Ok?
      && RequiredInt(env, "RESET_FOLLOW_CHANNEL_ID").Ok? && SheetsPrivateKey(env).Ok? && Port(env).Ok?;
    assert ok;
    var c := Load(env).value;
    assert c.adminRole == RequiredInt(env, "ADMIN_ROLE").value;
    assert c.alertsChannelId == RequiredInt(env, "ALERTS_CHANNEL_ID").value;
    assert c.lsFollowChannelId == RequiredInt(env, "LS_FOLLOW_CHANNEL_ID").value;
    assert c.xurFollowChannelId == RequiredInt(env, "XUR_FOLLOW_CHANNEL_ID").value;
    assert c.resetFollowChannelId == RequiredInt(env, "RESET_FOLLOW_CHANNEL_ID").value;
    assert c.disableBadChannels == DisableBadChannels(env).value;
    assert c.sheetsPrivateKey == SheetsPrivateKey(env).value;
    assert c.db == DbUrlsFrom(env).value;
  }

  /** A missing `DATABASE_URL` is the error reported, whatever else is
      missing; with the database URL and `TEST_ENV` fine, a missing
      `ADMIN_ROLE` is reported before the server ids are looked at. */
  lemma LoadReportsFirstLine(env: Env)
    ensures "DATABASE_URL" !in env ==> Load(env) == Err(Unset("DATABASE_URL"))
    ensures "DATABASE_URL" in env && TestEnvFrom(env).Ok? && "ADMIN_ROLE" !in env ==>
      Load(env) == Err(Unset("ADMIN_ROLE"))
  {
  }

  // ---------------------------------------------------------------------
  // Default announcement URLs
  // ---------------------------------------------------------------------

  /** The graphic URL an announcement redirects through, and the URL of
      the post it links to, used until an admin sets others. */
  datatype UrlDefaults = UrlDefaults(gfxUrl: string, postUrl: string)

  const XUR_DEFAULTS: UrlDefaults := UrlDefaults("https://kyber3000.com/Xur", "https://kyber3000.com/Xurpost")
  const WEEKLY_RESET_DEFAULTS: UrlDefaults := UrlDefaults("https://kyber3000.com/Reset", "https://kyber3000.com/Resetpost")
}

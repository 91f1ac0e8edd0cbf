/**
 * Start-up configuration checks (backend/app/config/settings.py): the two
 * required variables and the environment predicates. Reading the process
 * environment is not modelled; the values are inputs.
 */
module Settings {
  import opened Wrappers
  import opened Text

  /** The settings `AppConfig` is built from. A variable that is unset is `None`. */
  datatype ConfigInput = ConfigInput(
    environment: string,
    debug: bool,
    projectId: Option<string>,
    exportBucket: Option<string>)

  /** A configuration that passed validation. */
  datatype AppConfig = AppConfig(environment: string, debug: bool, projectId: string, exportBucket: string)

  const RequiredVars: seq<string> := ["PROJECT_ID", "EXPORT_BUCKET"]
  const MissingPrefix := "Missing required environment variables: "

  /** `not getattr(self, var)`: unset or empty. */
  predicate Falsy(v: Option<string>)
  {
    v.None? || v.value == ""
  }

  function Setting(c: ConfigInput, name: string): Option<string>
  {
    if name == "PROJECT_ID" then c.projectId
    else if name == "EXPORT_BUCKET" then c.exportBucket
    else None
  }

  /** `[var for var in names if not getattr(self, var)]`. */
  function MissingAmong(c: ConfigInput, names: seq<string>): (r: seq<string>)
    ensures forall v :: v in r <==> v in names && Falsy(Setting(c, v))
    ensures |r| <= |names|
  {
    if names == [] then []
    else (if Falsy(Setting(c, names[0])) then [names[0]] else []) + MissingAmong(c, names[1..])
  }

  function MissingVars(c: ConfigInput): seq<string>
  {
    MissingAmong(c, RequiredVars)
  }

  /** `AppConfig(...)` followed by `__post_init__`: a `ValueError` message, or the configuration. */
  function NewAppConfig(c: ConfigInput): Result<AppConfig, string>
  {
    var missing := MissingVars(c);
    assert "PROJECT_ID" in RequiredVars && "EXPORT_BUCKET" in RequiredVars;
    if missing != [] then Failure(MissingPrefix + Join(missing, ", "))
    else Success(AppConfig(c.environment, c.debug, c.projectId.value, c.exportBucket.value))
  }

  /** The missing names keep the order PROJECT_ID, EXPORT_BUCKET. */
  lemma {:induction false} MissingOrder(c: ConfigInput)
    ensures MissingVars(c) ==
      (if Falsy(c.projectId) then ["PROJECT_ID"] else []) + (if Falsy(c.exportBucket) then ["EXPORT_BUCKET"] else [])
  {
    var second: seq<string> := ["EXPORT_BUCKET"];
    assert RequiredVars[0] == "PROJECT_ID" && RequiredVars[1..] == second;
    assert second[0] == "EXPORT_BUCKET" && second[1..] == [];
    assert Setting(c, "PROJECT_ID") == c.projectId;
    assert Setting(c, "EXPORT_BUCKET") == c.exportBucket;
    assert MissingAmong(c, []) == [];
    assert MissingAmong(c, second) == (if Falsy(c.exportBucket) then ["EXPORT_BUCKET"] else []) + MissingAmong(c, []);
  }

  /** The error message names the missing variables joined by ", ", after
      the prefix "Missing required environment variables: ". */
  lemma MissingMessage(c: ConfigInput)
    ensures Falsy(c.projectId) && Falsy(c.exportBucket) ==>
      NewAppConfig(c) == Failure(MissingPrefix + "PROJECT_ID, EXPORT_BUCKET")
    ensures Falsy(c.projectId) && !Falsy(c.exportBucket) ==>
      NewAppConfig(c) == Failure(MissingPrefix + "PROJECT_ID")
    ensures !Falsy(c.projectId) && Falsy(c.exportBucket) ==>
      NewAppConfig(c) == Failure(MissingPrefix + "EXPORT_BUCKET")
  {
    MissingOrder(c);
    if Falsy(c.projectId) && Falsy(c.exportBucket) {
      var both := MissingVars(c);
      assert both[1..] == ["EXPORT_BUCKET"];
      assert Join(both, ", ") == "PROJECT_ID" + ", " + "EXPORT_BUCKET";
      assert "PROJECT_ID" + ", " + "EXPORT_BUCKET" == "PROJECT_ID, EXPORT_BUCKET";
    } else if Falsy(c.projectId) {
      MissingOne(c, "PROJECT_ID");
    } else if Falsy(c.exportBucket) {
      MissingOne(c, "EXPORT_BUCKET");
    }
  }

  /** One variable missing: its name alone after the prefix. */
  lemma MissingOne(c: ConfigInput, name: string)
    requires MissingVars(c) == [name]
    ensures NewAppConfig(c) == Failure(MissingPrefix + name)
  {
    assert Join([name], ", ") == name;
  }

  /** Construction fails exactly when one of the two variables is unset or
      empty; on success both values are kept and are non-empty. */
  lemma NewAppConfigFailsIff(c: ConfigInput)
    ensures NewAppConfig(c).Failure? <==> Falsy(c.projectId) || Falsy(c.exportBucket)
    ensures NewAppConfig(c).Success? ==>
      var cfg := NewAppConfig(c).value;
      cfg.projectId != "" && cfg.exportBucket != "" &&
      c.projectId == Some(cfg.projectId) && c.exportBucket == Some(cfg.exportBucket) &&
      cfg.environment == c.environment && cfg.debug == c.debug
  {
    MissingOrder(c);
  }

  /** `is_development`. */
  predicate IsDevelopment(cfg: AppConfig)
  {
    Lower(cfg.environment) in ["development", "dev"]
  }

  /** `is_production`. */
  predicate IsProduction(cfg: AppConfig)
  {
    Lower(cfg.environment) in ["production", "prod"]
  }

  /** The two environment predicates, case-insensitively, and that no
      environment is both. */
  lemma EnvironmentPredicates(cfg: AppConfig)
    ensures IsDevelopment(cfg) <==> Lower(cfg.environment) == "development" || Lower(cfg.environment) == "dev"
    ensures IsProduction(cfg) <==> Lower(cfg.environment) == "production" || Lower(cfg.environment) == "prod"
    ensures !(IsDevelopment(cfg) && IsProduction(cfg))
  {
  }

  /** Case does not matter: "PROD" and "Dev" are recognised. */
  lemma EnvironmentCaseInsensitive(cfg: AppConfig)
    ensures cfg.environment == "PROD" ==> IsProduction(cfg) && !IsDevelopment(cfg)
    ensures cfg.environment == "Dev" ==> IsDevelopment(cfg) && !IsProduction(cfg)
    ensures cfg.environment == "staging" ==> !IsDevelopment(cfg) && !IsProduction(cfg)
  {
    if cfg.environment == "PROD" {
      Recognised(cfg, "prod");
    } else if cfg.environment == "Dev" {
      Recognised(cfg, "dev");
    } else if cfg.environment == "staging" {
      Recognised(cfg, "staging");
    }
  }

  /** Both predicates read the lower-cased environment only. */
  lemma Recognised(cfg: AppConfig, low: string)
    requires |cfg.environment| == |low|
    requires forall k :: 0 <= k < |low| ==> LowerChar(cfg.environment[k]) == low[k]
    ensures IsDevelopment(cfg) <==> low == "development" || low == "dev"
    ensures IsProduction(cfg) <==> low == "production" || low == "prod"
  {
    assert Lower(cfg.environment) == low;
  }
}

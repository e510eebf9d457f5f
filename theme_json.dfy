/** The values the composed theme object holds, as the JSON the theme file
    serialises them to, together with decoders that read them back. */
module ThemeJson {
  import opened Wrappers
  import opened Palette
  import opened Rules

  /** A JSON value. Numbers are whole; the theme composition writes none. */
  datatype Json =
    | Null
    | Bool(b: bool)
    | Num(n: int)
    | Str(s: string)
    | Arr(items: seq<Json>)
    | Obj(fields: map<string, Json>)

  // ---------------------------------------------------------------------
  // Settings

  /** A property holding `undefined` is dropped when the object is serialised. */
  function OptionalField(key: string, value: Option<string>): map<string, Json> {
    if value.Some? then map[key := Str(value.value)] else map[]
  }

  function SettingsJson(settings: Settings): Json {
    Obj(OptionalField("foreground", settings.foreground)
      + OptionalField("background", settings.background)
      + OptionalField("fontStyle", settings.fontStyle))
  }

  function FieldText(fields: map<string, Json>, key: string): Option<string> {
    if key in fields && fields[key].Str? then Some(fields[key].s) else None
  }

  /** A settings object: string values under at most the three known keys. */
  function DecodeSettings(j: Json): Option<Settings> {
    if && j.Obj?
       && j.fields.Keys <= {"foreground", "background", "fontStyle"}
       && (forall key | key in j.fields :: j.fields[key].Str?)
    then Some(Settings(FieldText(j.fields, "foreground"), FieldText(j.fields, "background"),
                       FieldText(j.fields, "fontStyle")))
    else None
  }

  /** Serialised settings carry exactly the properties that are defined, and read back unchanged. */
  lemma SettingsRoundTrip(settings: Settings)
    ensures SettingsJson(settings).Obj?
    ensures "foreground" in SettingsJson(settings).fields <==> settings.foreground.Some?
    ensures "background" in SettingsJson(settings).fields <==> settings.background.Some?
    ensures "fontStyle" in SettingsJson(settings).fields <==> settings.fontStyle.Some?
    ensures DecodeSettings(SettingsJson(settings)) == Some(settings)
  {
    var fields := SettingsJson(settings).fields;
    assert fields.Keys <= {"foreground", "background", "fontStyle"};
  }

  // ---------------------------------------------------------------------
  // Token rules

  function StrItems(names: seq<string>): seq<Json> {
    seq(|names|, i requires 0 <= i < |names| => Str(names[i]))
  }

  /** `scope` is written as a string or as an array of strings, as in the list. */
  function ScopeJson(scope: Scope): Json {
    match scope
    case One(name) => Str(name)
    case Many(names) => Arr(StrItems(names))
  }

  function DecodeScope(j: Json): Option<Scope> {
    match j
    case Str(name) => Some(One(name))
    case Arr(items) =>
      if forall i | 0 <= i < |items| :: items[i].Str?
      then Some(Many(seq(|items|, i requires 0 <= i < |items| && items[i].Str? => items[i].s)))
      else None
    case _ => None
  }

  function TokenRuleJson(rule: TokenRule): Json {
    Obj(map["scope" := ScopeJson(rule.scope), "settings" := SettingsJson(rule.settings)])
  }

  function DecodeTokenRule(j: Json): Option<TokenRule> {
    if j.Obj? && j.fields.Keys == {"scope", "settings"} then
      var scope :- DecodeScope(j.fields["scope"]);
      var settings :- DecodeSettings(j.fields["settings"]);
      Some(TokenRule(scope, settings))
    else None
  }

  function TokenColorsJson(rules: seq<TokenRule>): Json {
    Arr(seq(|rules|, i requires 0 <= i < |rules| => TokenRuleJson(rules[i])))
  }

  /** The entries of an array of rules, in order; `None` if any entry is not a rule. */
  function DecodeRules(items: seq<Json>): Option<seq<TokenRule>>
    decreases |items|
  {
    if items == [] then Some([])
    else
      var first :- DecodeTokenRule(items[0]);
      var rest :- DecodeRules(items[1..]);
      Some([first] + rest)
  }

  function DecodeTokenColors(j: Json): Option<seq<TokenRule>> {
    if j.Arr? then DecodeRules(j.items) else None
  }

  lemma ScopeRoundTrip(scope: Scope)
    ensures DecodeScope(ScopeJson(scope)) == Some(scope)
  {
    if scope.Many? {
      var items := StrItems(scope.names);
      assert seq(|items|, i requires 0 <= i < |items| && items[i].Str? => items[i].s) == scope.names;
    }
  }

  lemma TokenRuleRoundTrip(rule: TokenRule)
    ensures DecodeTokenRule(TokenRuleJson(rule)) == Some(rule)
  {
    ScopeRoundTrip(rule.scope);
    SettingsRoundTrip(rule.settings);
  }

  /** A serialised token-colour list reads back as the same rules, in the same order. */
  lemma {:induction false} TokenColorsRoundTrip(rules: seq<TokenRule>)
    ensures DecodeTokenColors(TokenColorsJson(rules)) == Some(rules)
    decreases |rules|
  {
    var items := TokenColorsJson(rules).items;
    if rules != [] {
      TokenRuleRoundTrip(rules[0]);
      TokenColorsRoundTrip(rules[1..]);
      assert items[1..] == TokenColorsJson(rules[1..]).items;
      assert rules == [rules[0]] + rules[1..];
    }
  }

  // ---------------------------------------------------------------------
  // Semantic token colours

  function SemanticJson(m: map<string, Settings>): Json {
    Obj(map scope | scope in m :: SettingsJson(m[scope]))
  }

  function DecodeSemantic(j: Json): Option<map<string, Settings>> {
    if j.Obj? && forall scope | scope in j.fields :: DecodeSettings(j.fields[scope]).Some?
    then Some(map scope | scope in j.fields :: DecodeSettings(j.fields[scope]).value)
    else None
  }

  /** A serialised `semanticTokenColors` dictionary reads back as the same dictionary. */
  lemma SemanticRoundTrip(m: map<string, Settings>)
    ensures DecodeSemantic(SemanticJson(m)) == Some(m)
  {
    var fields := SemanticJson(m).fields;
    forall scope | scope in fields ensures DecodeSettings(fields[scope]) == Some(m[scope]) {
      SettingsRoundTrip(m[scope]);
    }
    var decoded := map scope | scope in fields :: DecodeSettings(fields[scope]).value;
    assert decoded.Keys == m.Keys;
    assert decoded == m;
  }
}

/** Composing an ABS theme: the base theme object for the mode, with its
    `semanticTokenColors` and `tokenColors` properties replaced by the ones
    built from the palette, and every other property left as it was. */
module AbsTheme {
  import opened Wrappers
  import opened Palette
  import opened Rules
  import opened ThemeJson

  /** A theme object as the base theme builder hands it out: its properties
      by key, updated in place. */
  class ThemeObject {
    var properties: map<string, Json>
  }

  const SEMANTIC_KEY := "semanticTokenColors"
  const TOKEN_KEY := "tokenColors"

  /** The composed theme's properties, computed from the base theme's
      properties and the colour source; fails exactly when the palette does. */
  function Compose(theme: string, base: map<string, Json>, src: ColorSource): (r: Result<map<string, Json>, LookupError>)
    ensures r.Success? <==> BuildPalette(ModeOf(theme), src).Success?
    ensures r.Failure? ==> r.error == BuildPalette(ModeOf(theme), src).error
    ensures r.Success? ==> r.value.Keys == base.Keys + {SEMANTIC_KEY, TOKEN_KEY}
    ensures r.Success? ==>
      forall key | key in base && key != SEMANTIC_KEY && key != TOKEN_KEY :: r.value[key] == base[key]
  {
    var p :- BuildPalette(ModeOf(theme), src);
    Success(base[SEMANTIC_KEY := SemanticJson(Flatten(SemanticRules(p)))][TOKEN_KEY := TokenColorsJson(TokenColors(p))])
  }

  /** The composition as the program performs it: ask the base theme builder
      for the base theme object, the colour source for its colours, build the
      palette (a missing scale aborts, leaving the object as it was), flatten
      the semantic rules, and overwrite the two properties of the builder's
      own object, which is returned. The object the builder hands out
      already exists when the composition starts. */
  method GetAbsTheme(
    theme: string,
    name: string,
    getTheme: (string, string) -> ThemeObject,
    getColors: string -> ColorSource
  ) returns (r: Result<ThemeObject, LookupError>)
    requires allocated(getTheme(BaseThemeName(ModeOf(theme)), name))
    modifies getTheme(BaseThemeName(ModeOf(theme)), name)
    ensures var baseThemeName := BaseThemeName(ModeOf(theme));
      var baseTheme := getTheme(baseThemeName, name);
      var composed := Compose(theme, old(getTheme(baseThemeName, name).properties), getColors(baseThemeName));
      && (r.Success? <==> composed.Success?)
      && (r.Failure? ==> r.error == composed.error && baseTheme.properties == old(getTheme(baseThemeName, name).properties))
      && (r.Success? ==> r.value == baseTheme && baseTheme.properties == composed.value)
  {
    var isLight := theme == "light_abs";
    var baseThemeName := if isLight then "light" else "dark";
    var baseTheme := getTheme(baseThemeName, name);
    var rawColors := getColors(baseThemeName);
    var absColors :- BuildPalette(if isLight then Light else Dark, rawColors);
    var semanticTokenColors := FlattenSemanticRules(SemanticRules(absColors));
    baseTheme.properties := baseTheme.properties[SEMANTIC_KEY := SemanticJson(semanticTokenColors)];
    baseTheme.properties := baseTheme.properties[TOKEN_KEY := TokenColorsJson(TokenColors(absColors))];
    return Success(baseTheme);
  }

  /** What a composed theme holds: `semanticTokenColors` is exactly the four
      declaration scopes in the function-declaration colour, and `tokenColors`
      is the 18-entry list which gives every scope exactly the design's settings. */
  lemma ComposedTheme(theme: string, base: map<string, Json>, src: ColorSource)
    requires Compose(theme, base, src).Success?
    ensures var p := BuildPalette(ModeOf(theme), src).value;
      var doc := Compose(theme, base, src).value;
      && DecodeSemantic(doc[SEMANTIC_KEY]).Some?
      && DecodeSemantic(doc[SEMANTIC_KEY]).value.Keys ==
           {"function.declaration", "class.declaration", "type.declaration", "interface.declaration"}
      && (forall scope | scope in DecodeSemantic(doc[SEMANTIC_KEY]).value ::
            DecodeSemantic(doc[SEMANTIC_KEY]).value[scope] == Fg(p.functionDeclaration))
      && DecodeTokenColors(doc[TOKEN_KEY]).Some?
      && |DecodeTokenColors(doc[TOKEN_KEY]).value| == 18
      && (forall scope, settings ::
            ExactStyle(DecodeTokenColors(doc[TOKEN_KEY]).value, scope) == Some(settings) <==>
            Designed(p, scope, settings))
  {
    var p := BuildPalette(ModeOf(theme), src).value;
    var doc := Compose(theme, base, src).value;
    SemanticRoundTrip(Flatten(SemanticRules(p)));
    SemanticTokenColorsExact(p);
    TokenColorsRoundTrip(TokenColors(p));
    forall scope, settings
      ensures ExactStyle(TokenColors(p), scope) == Some(settings) <==> Designed(p, scope, settings)
    {
      TokenColorsMeaning(p, scope, settings);
    }
  }

  /** Every selector other than "light_abs" composes the dark theme. */
  lemma OnlyLightAbsIsLight(theme: string, base: map<string, Json>, src: ColorSource)
    requires theme != "light_abs"
    ensures Compose(theme, base, src) == Compose("dark_abs", base, src)
  {
  }

  /** A colour source without the purple scale aborts the composition in
      either mode: the comment colour is the first thing read. */
  lemma MissingPurpleAborts(theme: string, base: map<string, Json>, src: ColorSource)
    requires "purple" !in src.scale
    ensures Compose(theme, base, src) == Failure(MissingScale("purple"))
  {
  }

  /** The comment entry of a dark theme, as written: purple shade 2. */
  lemma DarkCommentEntry(base: map<string, Json>, src: ColorSource)
    requires AllScalesPresent(src.scale) && |src.scale["purple"]| > 2
    ensures Compose("dark_abs", base, src).Success?
    ensures var doc := Compose("dark_abs", base, src).value;
      && doc[TOKEN_KEY].Arr? && |doc[TOKEN_KEY].items| == 18
      && doc[TOKEN_KEY].items[0] == Obj(map[
           "scope" := Arr([Str("comment"), Str("punctuation.definition.comment"), Str("string.comment")]),
           "settings" := Obj(map["foreground" := Str(src.scale["purple"][2])])])
  {
    var p := BuildPalette(Dark, src).value;
    var items := TokenColorsJson(TokenColors(p)).items;
    assert items[0] == TokenRuleJson(TokenColors(p)[0]);
    assert StrItems(["comment", "punctuation.definition.comment", "string.comment"]) ==
      [Str("comment"), Str("punctuation.definition.comment"), Str("string.comment")];
    assert SettingsJson(Fg(p.comment)) == Obj(map["foreground" := Str(src.scale["purple"][2])]);
  }

  /** The declaration scopes of a dark theme, as written: yellow shade 2. */
  lemma DarkDeclarationScopes(base: map<string, Json>, src: ColorSource)
    requires AllScalesPresent(src.scale) && |src.scale["yellow"]| > 2
    ensures Compose("dark_abs", base, src).Success?
    ensures var doc := Compose("dark_abs", base, src).value;
      && doc[SEMANTIC_KEY].Obj?
      && doc[SEMANTIC_KEY].fields.Keys ==
           {"function.declaration", "class.declaration", "type.declaration", "interface.declaration"}
      && doc[SEMANTIC_KEY].fields["function.declaration"] ==
           Obj(map["foreground" := Str(src.scale["yellow"][2])])
  {
    var p := BuildPalette(Dark, src).value;
    SemanticTokenColorsExact(p);
    FlattenLastWins(SemanticRules(p), 0, "function.declaration");
    assert SettingsJson(Fg(p.functionDeclaration)) == Obj(map["foreground" := Str(src.scale["yellow"][2])]);
  }

  /** In a light theme the comment colour is purple shade 5; when the purple
      scale is too short the comment settings hold `undefined` and are written
      as an empty object, yet the composition succeeds. */
  lemma LightCommentColor(base: map<string, Json>, src: ColorSource)
    requires AllScalesPresent(src.scale)
    ensures Compose("light_abs", base, src).Success?
    ensures var doc := Compose("light_abs", base, src).value;
      var settings := doc[TOKEN_KEY].items[0].fields["settings"];
      && (|src.scale["purple"]| > 5 ==> settings == Obj(map["foreground" := Str(src.scale["purple"][5])]))
      && (|src.scale["purple"]| <= 5 ==> settings == Obj(map[]))
  {
    var p := BuildPalette(Light, src).value;
    var items := TokenColorsJson(TokenColors(p)).items;
    assert items[0] == TokenRuleJson(TokenColors(p)[0]);
    assert "purple" in src.scale;
  }
}

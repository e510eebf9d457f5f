/** Steps 3 and 4 of composing an ABS theme: the semantic rules flattened into
    `semanticTokenColors`, and the ordered `tokenColors` list. */
module Rules {
  import opened Wrappers
  import opened Palette

  /** A rule's `settings` object. A `None` field is one the object lacks or
      holds as `undefined`; either way the serialised theme omits it. */
  datatype Settings = Settings(foreground: Option<Color>, background: Option<Color>, fontStyle: Option<string>)

  /** Settings with only a foreground. */
  function Fg(c: Option<Color>): Settings {
    Settings(c, None, None)
  }

  /** Settings with a foreground and a font style. */
  function Styled(c: Option<Color>, fontStyle: string): Settings {
    Settings(c, None, Some(fontStyle))
  }

  // ---------------------------------------------------------------------
  // Semantic rules and their flattening

  datatype SemanticRule = SemanticRule(semanticScopes: seq<string>, settings: Settings)

  /** The semantic rules: the four declaration scopes take the function-declaration colour. */
  function SemanticRules(p: Palette): (rules: seq<SemanticRule>)
    ensures AllScopes(rules) == {"function.declaration", "class.declaration", "type.declaration", "interface.declaration"}
    ensures forall i | 0 <= i < |rules| :: rules[i].settings == Fg(p.functionDeclaration)
  {
    var rules := [SemanticRule(
      ["function.declaration", "class.declaration", "type.declaration", "interface.declaration"],
      Fg(p.functionDeclaration))];
    assert forall scope :: scope in AllScopes(rules) <==> scope in rules[0].semanticScopes;
    rules
  }

  /** `m` after `m[scope] = settings` for each scope in turn. */
  function AssignScopes(m: map<string, Settings>, scopes: seq<string>, settings: Settings): map<string, Settings>
    decreases |scopes|
  {
    if scopes == [] then m
    else AssignScopes(m, scopes[..|scopes| - 1], settings)[scopes[|scopes| - 1] := settings]
  }

  /** The dictionary left by visiting every rule's scopes in order, starting from `{}`. */
  function Flatten(rules: seq<SemanticRule>): map<string, Settings>
    decreases |rules|
  {
    if rules == [] then map[]
    else
      var last := rules[|rules| - 1];
      AssignScopes(Flatten(rules[..|rules| - 1]), last.semanticScopes, last.settings)
  }

  /** Every scope named by some rule. */
  function AllScopes(rules: seq<SemanticRule>): set<string> {
    set i, scope | 0 <= i < |rules| && scope in rules[i].semanticScopes :: scope
  }

  /** The nested `forEach` that fills `semanticTokenColors`. */
  method FlattenSemanticRules(rules: seq<SemanticRule>) returns (semanticTokenColors: map<string, Settings>)
    ensures semanticTokenColors == Flatten(rules)
  {
    semanticTokenColors := map[];
    var i := 0;
    while i < |rules|
      invariant 0 <= i <= |rules|
      invariant semanticTokenColors == Flatten(rules[..i])
    {
      var rule := rules[i];
      var j := 0;
      while j < |rule.semanticScopes|
        invariant 0 <= j <= |rule.semanticScopes|
        invariant semanticTokenColors == AssignScopes(Flatten(rules[..i]), rule.semanticScopes[..j], rule.settings)
      {
        assert rule.semanticScopes[..j + 1][..j] == rule.semanticScopes[..j];
        semanticTokenColors := semanticTokenColors[rule.semanticScopes[j] := rule.settings];
        j := j + 1;
      }
      assert rule.semanticScopes[..j] == rule.semanticScopes;
      assert rules[..i + 1][..i] == rules[..i];
      i := i + 1;
    }
    assert rules[..i] == rules;
  }

  /** Assigning scopes adds exactly those keys; each gets the settings, every other key keeps its value. */
  lemma {:induction false} AssignScopesEffect(m: map<string, Settings>, scopes: seq<string>, settings: Settings, key: string)
    ensures AssignScopes(m, scopes, settings).Keys == m.Keys + set scope | scope in scopes
    ensures key in scopes ==> AssignScopes(m, scopes, settings)[key] == settings
    ensures key !in scopes && key in m ==> AssignScopes(m, scopes, settings)[key] == m[key]
    decreases |scopes|
  {
    if scopes != [] {
      var init := scopes[..|scopes| - 1];
      AssignScopesEffect(m, init, settings, key);
      assert scopes == init + [scopes[|scopes| - 1]];
      assert (set scope | scope in scopes) == (set scope | scope in init) + {scopes[|scopes| - 1]};
    }
  }

  /** The flattened dictionary has exactly the scopes the rules name as keys. */
  lemma {:induction false} FlattenKeys(rules: seq<SemanticRule>)
    ensures Flatten(rules).Keys == AllScopes(rules)
    decreases |rules|
  {
    if rules != [] {
      var init := rules[..|rules| - 1];
      var last := rules[|rules| - 1];
      FlattenKeys(init);
      AssignScopesEffect(Flatten(init), last.semanticScopes, last.settings, "");
      forall scope | scope in AllScopes(rules)
        ensures scope in AllScopes(init) || scope in last.semanticScopes
      {
        var i :| 0 <= i < |rules| && scope in rules[i].semanticScopes;
        if i < |rules| - 1 {
          assert init[i] == rules[i];
        }
      }
      forall scope | scope in AllScopes(init) ensures scope in AllScopes(rules) {
        var i :| 0 <= i < |init| && scope in init[i].semanticScopes;
        assert rules[i] == init[i];
      }
    }
  }

  /** Last write wins: a scope maps to the settings of the last rule that names it. */
  lemma {:induction false} FlattenLastWins(rules: seq<SemanticRule>, i: nat, scope: string)
    requires i < |rules| && scope in rules[i].semanticScopes
    requires forall j :: i < j < |rules| ==> scope !in rules[j].semanticScopes
    ensures scope in Flatten(rules) && Flatten(rules)[scope] == rules[i].settings
    decreases |rules|
  {
    var init := rules[..|rules| - 1];
    var last := rules[|rules| - 1];
    AssignScopesEffect(Flatten(init), last.semanticScopes, last.settings, scope);
    if i < |rules| - 1 {
      FlattenLastWins(init, i, scope);
    }
  }

  /** `semanticTokenColors` holds exactly the four declaration scopes, each with
      the function-declaration colour as its only setting. */
  lemma SemanticTokenColorsExact(p: Palette)
    ensures Flatten(SemanticRules(p)).Keys ==
      {"function.declaration", "class.declaration", "type.declaration", "interface.declaration"}
    ensures forall scope :: scope in Flatten(SemanticRules(p)) ==>
      Flatten(SemanticRules(p))[scope] == Fg(p.functionDeclaration)
  {
    var rules := SemanticRules(p);
    FlattenKeys(rules);
    assert AllScopes(rules) == set scope | scope in rules[0].semanticScopes;
    forall scope | scope in Flatten(rules) ensures Flatten(rules)[scope] == Fg(p.functionDeclaration) {
      FlattenLastWins(rules, 0, scope);
    }
  }

  // ---------------------------------------------------------------------
  // Token colours

  /** A rule's `scope`: a single scope string or a list of them. */
  datatype Scope = One(name: string) | Many(names: seq<string>)

  datatype TokenRule = TokenRule(scope: Scope, settings: Settings)

  function ScopeNames(scope: Scope): seq<string> {
    match scope
    case One(name) => [name]
    case Many(names) => names
  }

  predicate Names(rule: TokenRule, scopeName: string) {
    scopeName in ScopeNames(rule.scope)
  }

  /** The `tokenColors` list, in the order it is written. */
  function TokenColors(p: Palette): (rules: seq<TokenRule>)
    ensures |rules| == 18
  {
    [
      TokenRule(Many(["comment", "punctuation.definition.comment", "string.comment"]), Fg(p.comment)),
      TokenRule(Many(["string"]), Fg(p.stringConstant)),
      TokenRule(Many(["constant.numeric", "constant.language.boolean", "constant.language.null",
                      "constant.language.undefined"]), Fg(p.stringConstant)),
      TokenRule(Many(["variable.parameter", "meta.definition.variable", "variable.object.property",
                      "variable.other.constant.property"]), Fg(p.declaration)),
      TokenRule(Many(["punctuation", "meta.brace", "meta.delimiter"]), Fg(p.punctuation)),
      TokenRule(Many(["source.regexp", "string.regexp"]), Fg(p.stringConstant)),
      TokenRule(Many(["markup.heading", "markup.heading entity.name"]), Styled(p.functionDeclaration, "bold")),
      TokenRule(One("markup.quote"), Fg(p.stringConstant)),
      TokenRule(One("markup.inline.raw"), Fg(p.stringConstant)),
      TokenRule(One("markup.italic"), Styled(p.base, "italic")),
      TokenRule(One("markup.bold"), Styled(p.base, "bold")),
      TokenRule(Many(["markup.underline"]), Settings(None, None, Some("underline"))),
      TokenRule(Many(["markup.strikethrough"]), Settings(None, None, Some("strikethrough"))),
      TokenRule(Many(["markup.deleted", "meta.diff.header.from-file", "punctuation.definition.deleted"]),
                Settings(p.diffDeleted, p.diffDeletedBg, None)),
      TokenRule(Many(["markup.inserted", "meta.diff.header.to-file", "punctuation.definition.inserted"]),
                Settings(p.diffAdded, p.diffAddedBg, None)),
      TokenRule(Many(["markup.changed", "punctuation.definition.changed"]),
                Settings(p.diffChanged, p.diffChangedBg, None)),
      TokenRule(Many(["invalid.broken", "invalid.deprecated", "invalid.illegal", "invalid.unimplemented"]),
                Styled(p.error, "italic")),
      TokenRule(One("message.error"), Fg(p.error))
    ]
  }

  /** The settings a list gives to one exact scope string: those of the last
      entry that names it (entries are resolved by list position), or none. */
  function ExactStyle(rules: seq<TokenRule>, scopeName: string): Option<Settings> {
    StyleAmong(rules, |rules|, scopeName)
  }

  /** `ExactStyle` over the first `n` entries. */
  function StyleAmong(rules: seq<TokenRule>, n: nat, scopeName: string): Option<Settings>
    requires n <= |rules|
    decreases n
  {
    if n == 0 then None
    else if Names(rules[n - 1], scopeName) then Some(rules[n - 1].settings)
    else StyleAmong(rules, n - 1, scopeName)
  }

  /** A scope string gets no settings exactly when no entry names it. */
  lemma {:induction false} StyleAmongNone(rules: seq<TokenRule>, n: nat, scopeName: string)
    requires n <= |rules|
    ensures StyleAmong(rules, n, scopeName).None? <==> forall i :: 0 <= i < n ==> !Names(rules[i], scopeName)
    decreases n
  {
    if n > 0 {
      StyleAmongNone(rules, n - 1, scopeName);
    }
  }

  /** Last entry wins: a scope string gets the settings of the last entry that names it. */
  lemma {:induction false} StyleAmongLast(rules: seq<TokenRule>, n: nat, i: nat, scopeName: string)
    requires i < n <= |rules| && Names(rules[i], scopeName)
    requires forall j :: i < j < n ==> !Names(rules[j], scopeName)
    ensures StyleAmong(rules, n, scopeName) == Some(rules[i].settings)
    decreases n
  {
    if i < n - 1 {
      StyleAmongLast(rules, n - 1, i, scopeName);
    }
  }

  /** The design of the token colours, as a set of looks: four accent colours
      (comment, string/constant, declaration, function declaration), dimmed
      punctuation, emphasis on the base colour, paired diff colours and
      italic errors. A scope no look mentions is meant to keep the base
      theme's default foreground. */
  datatype Look =
    | CommentLook | StringConstantLook | DeclarationLook | PunctuationLook | HeadingLook
    | ItalicLook | BoldLook | UnderlineLook | StrikethroughLook
    | DeletedLook | InsertedLook | ChangedLook | InvalidLook | MessageErrorLook

  /** The scopes that wear a look. */
  function LookScopes(look: Look): seq<string> {
    match look
    case CommentLook => ["comment", "punctuation.definition.comment", "string.comment"]
    // strings, literal constants, regular expressions, quoted and raw markup
    case StringConstantLook =>
      ["string", "constant.numeric", "constant.language.boolean", "constant.language.null",
       "constant.language.undefined", "source.regexp", "string.regexp",
       "markup.quote", "markup.inline.raw"]
    case DeclarationLook =>
      ["variable.parameter", "meta.definition.variable", "variable.object.property",
       "variable.other.constant.property"]
    case PunctuationLook => ["punctuation", "meta.brace", "meta.delimiter"]
    case HeadingLook => ["markup.heading", "markup.heading entity.name"]
    case ItalicLook => ["markup.italic"]
    case BoldLook => ["markup.bold"]
    case UnderlineLook => ["markup.underline"]
    case StrikethroughLook => ["markup.strikethrough"]
    case DeletedLook => ["markup.deleted", "meta.diff.header.from-file", "punctuation.definition.deleted"]
    case InsertedLook => ["markup.inserted", "meta.diff.header.to-file", "punctuation.definition.inserted"]
    case ChangedLook => ["markup.changed", "punctuation.definition.changed"]
    case InvalidLook => ["invalid.broken", "invalid.deprecated", "invalid.illegal", "invalid.unimplemented"]
    case MessageErrorLook => ["message.error"]
  }

  /** What a look sets: a palette colour, a font style, or both; underline
      and strikethrough change only the font style, the diff looks set a
      foreground and a background. */
  function LookSettings(p: Palette, look: Look): Settings {
    match look
    case CommentLook => Fg(p.comment)
    case StringConstantLook => Fg(p.stringConstant)
    case DeclarationLook => Fg(p.declaration)
    case PunctuationLook => Fg(p.punctuation)
    case HeadingLook => Styled(p.functionDeclaration, "bold")
    case ItalicLook => Styled(p.base, "italic")
    case BoldLook => Styled(p.base, "bold")
    case UnderlineLook => Settings(None, None, Some("underline"))
    case StrikethroughLook => Settings(None, None, Some("strikethrough"))
    case DeletedLook => Settings(p.diffDeleted, p.diffDeletedBg, None)
    case InsertedLook => Settings(p.diffAdded, p.diffAddedBg, None)
    case ChangedLook => Settings(p.diffChanged, p.diffChangedBg, None)
    case InvalidLook => Styled(p.error, "italic")
    case MessageErrorLook => Fg(p.error)
  }

  /** The design gives `settings` to `scopeName`. */
  predicate Designed(p: Palette, scopeName: string, settings: Settings) {
    exists look: Look :: scopeName in LookScopes(look) && settings == LookSettings(p, look)
  }

  // The scopes of each entry are named by no later entry, so each keeps its
  // entry's settings. The six lemmas below check this a few entries at a
  // time and share one proof step; they are kept apart only so that each
  // proof obligation stays within the verifier's resource bound, since one
  // lemma over all 18 entries compares too many scope strings at once.

  lemma CommentEntryWins(p: Palette, scopeName: string)
    requires Names(TokenColors(p)[0], scopeName)
    ensures ExactStyle(TokenColors(p), scopeName) == Some(TokenColors(p)[0].settings)
  {
    StyleAmongLast(TokenColors(p), 18, 0, scopeName);
  }

  lemma StringAndPunctuationEntriesWin(p: Palette, i: nat, scopeName: string)
    requires i in {1, 4} && Names(TokenColors(p)[i], scopeName)
    ensures ExactStyle(TokenColors(p), scopeName) == Some(TokenColors(p)[i].settings)
  {
    StyleAmongLast(TokenColors(p), 18, i, scopeName);
  }

  lemma ConstantEntryWins(p: Palette, scopeName: string)
    requires Names(TokenColors(p)[2], scopeName)
    ensures ExactStyle(TokenColors(p), scopeName) == Some(TokenColors(p)[2].settings)
  {
    StyleAmongLast(TokenColors(p), 18, 2, scopeName);
  }

  lemma DeclarationEntryWins(p: Palette, scopeName: string)
    requires Names(TokenColors(p)[3], scopeName)
    ensures ExactStyle(TokenColors(p), scopeName) == Some(TokenColors(p)[3].settings)
  {
    StyleAmongLast(TokenColors(p), 18, 3, scopeName);
  }

  lemma RegexpAndMarkupEntriesWin(p: Palette, i: nat, scopeName: string)
    requires 5 <= i <= 8 && Names(TokenColors(p)[i], scopeName)
    ensures ExactStyle(TokenColors(p), scopeName) == Some(TokenColors(p)[i].settings)
  {
    StyleAmongLast(TokenColors(p), 18, i, scopeName);
  }

  lemma LateEntriesWin(p: Palette, i: nat, scopeName: string)
    requires 9 <= i < 18 && Names(TokenColors(p)[i], scopeName)
    ensures ExactStyle(TokenColors(p), scopeName) == Some(TokenColors(p)[i].settings)
  {
    StyleAmongLast(TokenColors(p), 18, i, scopeName);
  }

  /** Every entry's scopes keep that entry's settings: no later entry overrides them. */
  lemma EntryWins(p: Palette, i: nat, scopeName: string)
    requires i < |TokenColors(p)| && Names(TokenColors(p)[i], scopeName)
    ensures ExactStyle(TokenColors(p), scopeName) == Some(TokenColors(p)[i].settings)
  {
    if i == 0 {
      CommentEntryWins(p, scopeName);
    } else if i == 1 || i == 4 {
      StringAndPunctuationEntriesWin(p, i, scopeName);
    } else if i == 2 {
      ConstantEntryWins(p, scopeName);
    } else if i == 3 {
      DeclarationEntryWins(p, scopeName);
    } else if i <= 8 {
      RegexpAndMarkupEntriesWin(p, i, scopeName);
    } else {
      LateEntriesWin(p, i, scopeName);
    }
  }

  /** The look each entry of the list draws. */
  function EntryLook(i: nat): Look
    requires i < 18
  {
    [CommentLook, StringConstantLook, StringConstantLook, DeclarationLook, PunctuationLook,
     StringConstantLook, HeadingLook, StringConstantLook, StringConstantLook, ItalicLook,
     BoldLook, UnderlineLook, StrikethroughLook, DeletedLook, InsertedLook, ChangedLook,
     InvalidLook, MessageErrorLook][i]
  }

  /** Each entry's settings are the design's settings for every scope it names. */
  lemma EntryDesigned(p: Palette, i: nat, scopeName: string)
    requires i < |TokenColors(p)| && Names(TokenColors(p)[i], scopeName)
    ensures Designed(p, scopeName, TokenColors(p)[i].settings)
  {
    var look := EntryLook(i);
    assert scopeName in LookScopes(look) && TokenColors(p)[i].settings == LookSettings(p, look);
  }

  /** Every scope the design styles is named by an entry carrying that style. */
  lemma DesignedEntry(p: Palette, scopeName: string, settings: Settings) returns (i: nat)
    requires Designed(p, scopeName, settings)
    ensures i < |TokenColors(p)| && Names(TokenColors(p)[i], scopeName)
    ensures TokenColors(p)[i].settings == settings
  {
    var look :| scopeName in LookScopes(look) && settings == LookSettings(p, look);
    i := LookEntry(p, look, scopeName);
  }

  /** Every scope of a look is named by an entry that draws that look. */
  lemma LookEntry(p: Palette, look: Look, scopeName: string) returns (i: nat)
    requires scopeName in LookScopes(look)
    ensures i < |TokenColors(p)| && Names(TokenColors(p)[i], scopeName)
    ensures TokenColors(p)[i].settings == LookSettings(p, look)
  {
    match look
    case CommentLook => i := 0;
    case StringConstantLook => i := StringConstantEntry(p, scopeName);
    case DeclarationLook => i := 3;
    case PunctuationLook => i := 4;
    case HeadingLook => i := 6;
    case _ => i := EmphasisLookEntry(p, look, scopeName);
  }

  /** The looks drawn by the entries from `markup.italic` onwards, one entry each. */
  predicate EmphasisLook(look: Look) {
    !(look.CommentLook? || look.StringConstantLook? || look.DeclarationLook? || look.PunctuationLook? || look.HeadingLook?)
  }

  lemma EmphasisLookEntry(p: Palette, look: Look, scopeName: string) returns (i: nat)
    requires EmphasisLook(look) && scopeName in LookScopes(look)
    ensures i < |TokenColors(p)| && Names(TokenColors(p)[i], scopeName)
    ensures TokenColors(p)[i].settings == LookSettings(p, look)
  {
    match look
    case ItalicLook => i := 9;
    case BoldLook => i := 10;
    case UnderlineLook => i := 11;
    case StrikethroughLook => i := 12;
    case DeletedLook => i := 13;
    case InsertedLook => i := 14;
    case ChangedLook => i := 15;
    case InvalidLook => i := 16;
    case MessageErrorLook => i := 17;
  }

  /** The string colour is spread over five entries of the list. */
  lemma StringConstantEntry(p: Palette, scopeName: string) returns (i: nat)
    requires scopeName in LookScopes(StringConstantLook)
    ensures i < |TokenColors(p)| && Names(TokenColors(p)[i], scopeName)
    ensures TokenColors(p)[i].settings == Fg(p.stringConstant)
  {
    var tc := TokenColors(p);
    assert || Names(tc[1], scopeName) || Names(tc[2], scopeName) || Names(tc[5], scopeName)
           || Names(tc[7], scopeName) || Names(tc[8], scopeName);
    i := if Names(tc[1], scopeName) then 1
      else if Names(tc[2], scopeName) then 2
      else if Names(tc[5], scopeName) then 5
      else if Names(tc[7], scopeName) then 7
      else 8;
  }

  /** Read as the editor reads it (last entry naming the exact scope), the
      list gives a scope exactly the settings the design gives it. */
  lemma TokenColorsMeaning(p: Palette, scopeName: string, settings: Settings)
    ensures ExactStyle(TokenColors(p), scopeName) == Some(settings) <==> Designed(p, scopeName, settings)
  {
    var tc := TokenColors(p);
    if Designed(p, scopeName, settings) {
      var i := DesignedEntry(p, scopeName, settings);
      EntryWins(p, i, scopeName);
    }
    if ExactStyle(tc, scopeName) == Some(settings) {
      StyleAmongNone(tc, 18, scopeName);
      var i :| 0 <= i < 18 && Names(tc[i], scopeName);
      EntryWins(p, i, scopeName);
      EntryDesigned(p, i, scopeName);
    }
  }

  /** The list opens with the comment rule and closes with `message.error`;
      four markup entries and the last one name a single scope string, the
      rest a list of them. */
  lemma TokenColorsOrder(p: Palette)
    ensures |TokenColors(p)| == 18
    ensures TokenColors(p)[0] == TokenRule(Many(LookScopes(CommentLook)), LookSettings(p, CommentLook))
    ensures TokenColors(p)[17] == TokenRule(One("message.error"), LookSettings(p, MessageErrorLook))
    ensures forall i | 0 <= i < 18 :: TokenColors(p)[i].scope.One? <==> i in {7, 8, 9, 10, 17}
    ensures forall i | 0 <= i < 18 :: TokenColors(p)[i].settings == LookSettings(p, EntryLook(i))
  {
  }

  /** Underline and strikethrough set only a font style, with no colour. */
  lemma UnderlineStrikethroughShape(p: Palette)
    ensures ExactStyle(TokenColors(p), "markup.underline") == Some(Settings(None, None, Some("underline")))
    ensures ExactStyle(TokenColors(p), "markup.strikethrough") == Some(Settings(None, None, Some("strikethrough")))
  {
    EntryWins(p, 11, "markup.underline");
    EntryWins(p, 12, "markup.strikethrough");
  }

  /** The diff scopes carry a foreground and a background, both from the diff colours. */
  lemma DiffShape(p: Palette, scopeName: string)
    ensures scopeName in LookScopes(DeletedLook) ==>
      ExactStyle(TokenColors(p), scopeName) == Some(Settings(p.diffDeleted, p.diffDeletedBg, None))
    ensures scopeName in LookScopes(InsertedLook) ==>
      ExactStyle(TokenColors(p), scopeName) == Some(Settings(p.diffAdded, p.diffAddedBg, None))
    ensures scopeName in LookScopes(ChangedLook) ==>
      ExactStyle(TokenColors(p), scopeName) == Some(Settings(p.diffChanged, p.diffChangedBg, None))
  {
    if scopeName in LookScopes(DeletedLook) {
      EntryWins(p, 13, scopeName);
    } else if scopeName in LookScopes(InsertedLook) {
      EntryWins(p, 14, scopeName);
    } else if scopeName in LookScopes(ChangedLook) {
      EntryWins(p, 15, scopeName);
    }
  }

  /** Invalid code is italic in the error colour. */
  lemma InvalidShape(p: Palette, scopeName: string)
    requires scopeName in ["invalid.broken", "invalid.deprecated", "invalid.illegal", "invalid.unimplemented"]
    ensures ExactStyle(TokenColors(p), scopeName) == Some(Settings(p.error, None, Some("italic")))
  {
    EntryWins(p, 16, scopeName);
  }

  /** Keywords, storage, plain variables, library names, tags and other
      entities: the design deliberately leaves them to the base theme. */
  const UNSTYLED_SCOPES: seq<string> :=
    ["keyword", "storage", "storage.type", "variable.other", "variable.language", "support",
     "meta.property-name", "entity.name.tag", "support.class.component", "constant.other",
     "entity.other"]

  lemma KeywordScopesHaveNoLook(scopeName: string, look: Look)
    requires scopeName in ["keyword", "storage", "storage.type", "support"]
    ensures scopeName !in LookScopes(look)
  {
  }

  lemma VariableScopesHaveNoLook(scopeName: string, look: Look)
    requires scopeName in ["variable.other", "variable.language", "constant.other", "support.class.component"]
    ensures scopeName !in LookScopes(look)
  {
  }

  lemma EntityScopesHaveNoLook(scopeName: string, look: Look)
    requires scopeName in ["meta.property-name", "entity.name.tag", "entity.other"]
    ensures scopeName !in LookScopes(look)
  {
  }

  /** The scopes the design leaves to the base theme are named by no entry,
      so the list gives them nothing. */
  lemma UnstyledScopes(p: Palette, scopeName: string)
    requires scopeName in UNSTYLED_SCOPES
    ensures ExactStyle(TokenColors(p), scopeName) == None
  {
    if ExactStyle(TokenColors(p), scopeName).Some? {
      var settings := ExactStyle(TokenColors(p), scopeName).value;
      TokenColorsMeaning(p, scopeName, settings);
      var look :| scopeName in LookScopes(look) && settings == LookSettings(p, look);
      if scopeName in ["keyword", "storage", "storage.type", "support"] {
        KeywordScopesHaveNoLook(scopeName, look);
      } else if scopeName in ["variable.other", "variable.language", "constant.other", "support.class.component"] {
        VariableScopesHaveNoLook(scopeName, look);
      } else {
        EntityScopesHaveNoLook(scopeName, look);
      }
    }
  }
}

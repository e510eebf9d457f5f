# GitHub ABS theme composer, modelled in Dafny

The GitHub ABS ("Alabaster-Based Syntax") VS Code themes are built by one
function, `getAbsTheme` in `src/abs-theme.js`. Given a theme selector and a
display name, it does the following:

1. It picks light or dark mode. Light is chosen only for the exact selector
   `"light_abs"`.
2. It asks the base theme builder for the matching GitHub base theme.
3. It asks the colour source for that mode's named colour scales.
4. It builds a palette of colour roles. Each role takes one fixed shade index
   of one scale, with one index for light and another for dark. The base text
   colour is the source's `fg.default`.
5. It flattens the semantic rules into a `semanticTokenColors` dictionary,
   using a nested loop in which the last write wins.
6. It overwrites two properties of the base theme object in place:
   `semanticTokenColors`, and `tokenColors`, an ordered list of 18
   scope/settings entries.

Every other property of the base theme is left as it was. The design colours
only four kinds of token: comments, strings and constants, declarations, and
function declarations. It dims punctuation and deliberately leaves keywords,
storage, plain variables and library names in the base colour.

The project has five modules, one file each:

- `wrappers.dfy` (`Wrappers`): `Option` and `Result`. `None` stands for
  JavaScript `undefined`.
- `palette.dfy` (`Palette`): the mode choice, and the palette as the source
  evaluates it. A missing scale throws, and the model records which scale was
  missing. An index past the end of a scale yields `undefined`. The module also
  holds the design table of (scale, shade) pairs per role and mode, with the
  lemmas that tie the palette to that table.
- `rules.dfy` (`Rules`):
  - the semantic rules, the imperative flattening loop and its specification;
  - the literal `tokenColors` list;
  - a reading of the list: the settings of the last entry that names an
    exact scope string;
  - the design written separately as "looks", each with its scopes and its
    settings;
  - the proof that the list gives every scope exactly the settings of the
    design.
- `theme_json.dfy` (`ThemeJson`): the JSON values the two new properties hold,
  and decoders that read them back (round trips).
- `abs_theme.dfy` (`AbsTheme`):
  - the theme object as a class whose property dictionary is updated in place;
  - `Compose`, the pure specification of the composition;
  - `GetAbsTheme`, the composition step by step, proved equal to `Compose`;
  - lemmas about the composed theme.

The base theme builder and the colour source are opaque. `GetAbsTheme` takes
them as function parameters: `getTheme` maps a base theme name and a display
name to the base theme object it hands out, and `getColors` maps a base theme name to
the scales and `fg.default`.

Facts about the code that the model keeps:

- The code does not override `editor.foreground` in either mode. The UI
  colours of the base theme are left untouched.
- There is no semantic rule for parameter declarations. Only the four
  declaration scopes appear in `semanticTokenColors`.
- The palette has 13 roles.
- A shade index past the end of its scale is not an error. It reads
  `undefined`, the role becomes `None`, and the serialised settings simply
  lack that key (`AbsTheme.LightCommentColor`). Only a missing scale aborts
  the composition. "Composition is fully defined" is therefore stated as an
  if-and-only-if with the scales being long enough
  (`Palette.PaletteDefinedIffStocked`, `Palette.StockedLengths`).

## Model

| member | source | states |
|---|---|---|
| Palette.ModeOf | src/abs-theme.js:13 | The mode is light if and only if the selector is exactly "light_abs". |
| Palette.BaseThemeName | src/abs-theme.js:14 | The base theme (and colour source) requested is "light" exactly in light mode and "dark" exactly in dark mode. |
| Palette.BuildPalette | src/abs-theme.js:27-49 | A built palette holds, for every role, what the design table's (scale, index) pair, or `fg.default`, resolves to in the colour source. A failure names a scale the source lacks, and that scale is one of the seven the palette reads. `Palette.PaletteFollowsTable` and `Palette.PaletteFailsAtFirstMissing` add when it fails and which scale it reports. |
| Palette.ModeChoice | src/abs-theme.js:13-14 | The mode is light, and the base theme name is "light", exactly when the selector is "light_abs". Every other selector, including "light" and "dark_abs", gives dark and "dark". |
| Palette.PaletteFollowsTable | src/abs-theme.js:27-49 | A built palette holds, for every role, exactly the value that the design table's (scale, index) pair or `fg.default` resolves to in the colour source. Building fails exactly when some role's scale is missing. |
| Palette.PaletteFailsAtFirstMissing | src/abs-theme.js:27-49 | A failed palette reports the missing scale of the first role, in the literal's evaluation order, whose lookup fails. All roles before it resolve. |
| Palette.StockedLengths | src/abs-theme.js:29-48 | Every scale the table reads exists and is long enough exactly when, for each hue, the scale is present and longer than its highest index read: light reads up to `red[7]`, dark up to `green[9]` and `red[9]`. |
| Palette.PaletteDefinedIffStocked | src/abs-theme.js:27-49 | The palette is built with no `undefined` role if and only if every scale it reads exists and is long enough for the mode. |
| Rules.SemanticRules | src/abs-theme.js:51-65 | The semantic rules name exactly function/class/type/interface `.declaration`, and every rule's only setting is the function-declaration colour as foreground. |
| Rules.FlattenSemanticRules | src/abs-theme.js:66-72 | The nested loop over rules and their scopes leaves exactly `Flatten(rules)`, the dictionary obtained by assigning each rule's settings to each of its scopes in order. |
| Rules.AssignScopesEffect | src/abs-theme.js:69-71 | Assigning a rule's scopes adds exactly those keys, maps each to the rule's settings, and leaves every other key's value unchanged. |
| Rules.FlattenKeys | src/abs-theme.js:66-72 | The flattened dictionary's keys are exactly the scopes that some rule names. |
| Rules.FlattenLastWins | src/abs-theme.js:66-72 | Last write wins: a scope maps to the settings of the last rule that names it. |
| Rules.SemanticTokenColorsExact | src/abs-theme.js:51-72 | `semanticTokenColors` has exactly the keys function/class/type/interface `.declaration`. Each maps to settings whose only colour is the function-declaration colour. |
| Rules.TokenColors | src/abs-theme.js:77-280 | The list has 18 entries. Their meaning is stated by `Rules.TokenColorsMeaning` (every scope gets exactly the design's settings) and their order and shape by `Rules.TokenColorsOrder`. |
| Rules.EntryWins | src/abs-theme.js:77-280 | No entry of the list is overridden. Every scope an entry names is given that entry's settings, because no later entry names it again. |
| Rules.EntryDesigned | src/abs-theme.js:77-280 | Every entry's settings are the design's settings for each scope it names. |
| Rules.DesignedEntry | src/abs-theme.js:77-280 | Every scope the design styles is named by some entry carrying exactly that style. |
| Rules.TokenColorsMeaning | src/abs-theme.js:77-280 | Reading the list as last-entry-wins on exact scope strings, a scope gets settings `s` if and only if the design gives it `s`. |
| Rules.TokenColorsOrder | src/abs-theme.js:77-280 | The list has 18 entries. It opens with the comment rule and closes with `message.error`. Exactly entries 7, 8, 9, 10 and 17 name a single scope string. Each entry draws one look of the design. |
| Rules.UnstyledScopes | src/abs-theme.js:151-170 | The scopes deliberately left to the base colour are named by no entry, so the list gives them nothing: keyword, storage, storage.type, variable.other, variable.language, support, meta.property-name, entity.name.tag, support.class.component, constant.other, entity.other. |
| Rules.UnderlineStrikethroughShape | src/abs-theme.js:222-233 | `markup.underline` and `markup.strikethrough` get only a font style (underline / strikethrough), with no foreground or background. |
| Rules.DiffShape | src/abs-theme.js:236-264 | Each deleted, inserted or changed diff scope gets its diff colour as foreground and its diff background colour as background. |
| Rules.InvalidShape | src/abs-theme.js:267-273 | The four `invalid.*` scopes are italic in the error colour. |
| ThemeJson.SettingsRoundTrip | src/abs-theme.js:79-84 | A settings object carries a key exactly when its value is defined, since `undefined` is dropped. It decodes back to the same settings. |
| ThemeJson.ScopeRoundTrip | src/abs-theme.js:192-197 | A scope written as one string or as an array of strings decodes back to the same scope. |
| ThemeJson.TokenRuleRoundTrip | src/abs-theme.js:79-84 | A `{scope, settings}` entry decodes back to the same rule. |
| ThemeJson.TokenColorsRoundTrip | src/abs-theme.js:77-280 | The `tokenColors` array decodes back to the same rules, in the same order. |
| ThemeJson.SemanticRoundTrip | src/abs-theme.js:66-74 | The `semanticTokenColors` object decodes back to the same dictionary. |
| AbsTheme.Compose | src/abs-theme.js:11-283 | Composition fails exactly when the palette does, with the same error. On success, the keys are the base theme's keys plus the two patched ones, and every other property of the base theme (name, UI colours, …) is unchanged. |
| AbsTheme.GetAbsTheme | src/abs-theme.js:11-283 | The step-by-step composition calls the base theme builder and the colour source with "light"/"dark", and succeeds exactly when `Compose` does. On success it returns the very object the builder handed out, whose two properties it has overwritten in place, so that object's properties become exactly `Compose`'s result on its former properties, and anyone else holding it sees the change. On failure it reports `Compose`'s error and leaves the object as it was. |
| AbsTheme.ComposedTheme | src/abs-theme.js:51-280 | In a composed theme, `semanticTokenColors` decodes to the four declaration scopes in the function-declaration colour. `tokenColors` decodes to 18 rules that give every scope exactly the design's settings. |
| AbsTheme.OnlyLightAbsIsLight | src/abs-theme.js:13-14 | Every selector other than "light_abs" composes the same theme as "dark_abs". |
| AbsTheme.MissingPurpleAborts | src/abs-theme.js:24-29 | Without a purple scale the composition aborts in either mode, reporting purple, because the comment colour is read first. |
| AbsTheme.DarkCommentEntry | src/abs-theme.js:27-84 | In a dark theme whose seven scales all exist and whose purple scale has more than 2 shades, the first `tokenColors` entry is written as the three comment scopes with foreground `purple[2]`. |
| AbsTheme.DarkDeclarationScopes | src/abs-theme.js:33-74 | In a dark theme whose seven scales all exist and whose yellow scale has more than 2 shades, `semanticTokenColors` holds exactly the four declaration scopes, and `function.declaration` is written with foreground `yellow[2]`. |
| AbsTheme.LightCommentColor | src/abs-theme.js:27-84 | In a light theme, the comment entry's foreground is `purple[5]`. If the purple scale is too short, the composition still succeeds and the comment settings are written as `{}`. |

## Left out

- Writing the themes: `src/index.js` creates the output directory and writes the two documents with `JSON.stringify`, exiting on error. This is file I/O and is not modelled. That file calls the composer with "light_abs" and "dark_abs" (src/index.js:9-17); `AbsTheme.DarkCommentEntry`, `AbsTheme.DarkDeclarationScopes` and `AbsTheme.LightCommentColor` cover those two calls. The JSON values are modelled (`ThemeJson`), but their text rendering, indentation and key order are not: objects are maps.
- `samples/demo.js` and `demo.js`: sample programs for previewing highlighting, with no logic.
- The base theme builder (`./theme`), the colour source (`./colors`) and the unused classic theme are not part of this model. The first two are opaque function parameters.
- GetAbsTheme: `getTheme` and `getColors` are modelled as pure functions, so an exception they might throw, or a colour source whose `scale` or `fg` is itself missing, or an `fg` without `default` (which would make the base colour `undefined`), is not modelled.
- Palette.ModeOf: the selector is a string. In the source any JavaScript value may be passed, an omitted `theme` included; every value other than the string "light_abs" gives dark, as every other string does here.
- Colour values are uninterpreted strings: no colour arithmetic, contrast or legibility.
- Rules.TokenColorsMeaning: the list is read by exact scope string, last entry winning. The editor's own scope-selector matching (prefix matching, specificity, descendant selectors such as "markup.heading entity.name") is not modelled.
- Object identity: the four semantic scopes share one settings object in the source. The model holds four equal values, so aliasing is not captured. Nothing mutates those objects afterwards.
- A JavaScript property holding `undefined` and an absent property are both `None`. The two are indistinguishable once serialised.
- Non-integer JSON numbers: `Json.Num` holds an integer. The composition writes no numbers, and base-theme numbers are carried through untouched.

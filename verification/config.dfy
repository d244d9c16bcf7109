/**
 * Option handling of the generator entry point: boolean coercion of textual
 * toggles, named defaults for the string options, and validation of the file
 * naming style, all before any DTO is synthesised.
 */
module Config {
  import opened Wrappers

  /** The generator's configuration block as the host hands it over: a
      loosely-typed bag of textual settings keyed by option name. */
  type RawConfig = map<string, string>

  /** The spellings that coerce to a boolean. */
  function BoolText(b: bool): string {
    if b then "true" else "false"
  }

  /** `stringToBoolean`: exactly "true" and "false" coerce to their boolean;
      any other text, or a missing value, gives the default. It never fails. */
  function StringToBoolean(input: Option<string>, defaultValue: bool): (b: bool)
    ensures forall x: bool {:trigger BoolText(x)} :: input == Some(BoolText(x)) ==> b == x
    ensures b == defaultValue || input == Some(BoolText(b))
  {
    if input == Some("true") then true
    else if input == Some("false") then false
    else defaultValue
  }

  /** The naming styles the generator supports for file names. */
  datatype NamingStyle = Kebab | Camel | Pascal | Snake

  /** The supported style names, in the order the error message lists them. */
  const SupportedFileNamingStyles: seq<string> := ["kebab", "camel", "pascal", "snake"]

  function StyleName(style: NamingStyle): string {
    match style
    case Kebab => "kebab"
    case Camel => "camel"
    case Pascal => "pascal"
    case Snake => "snake"
  }

  /** The membership test on the supported styles, narrowing the text to a style. */
  function ParseNamingStyle(s: string): (r: Option<NamingStyle>)
    ensures r.Some? <==> s in SupportedFileNamingStyles
    ensures r.Some? ==> StyleName(r.value) == s
  {
    if s == "kebab" then Some(Kebab)
    else if s == "camel" then Some(Camel)
    else if s == "pascal" then Some(Pascal)
    else if s == "snake" then Some(Snake)
    else None
  }

  /** Every style's name parses back to that style. */
  lemma StyleNameRoundTrip(style: NamingStyle)
    ensures StyleName(style) in SupportedFileNamingStyles
    ensures ParseNamingStyle(StyleName(style)) == Some(style)
  {
  }

  /** Each name quoted with `'` and joined with ", ". */
  function QuotedList(names: seq<string>): string {
    if names == [] then ""
    else if |names| == 1 then "'" + names[0] + "'"
    else "'" + names[0] + "', " + QuotedList(names[1..])
  }

  /** The configuration error raised for an unsupported naming style. */
  function InvalidStyleMessage(style: string): string {
    "'" + style + "' is not a valid file naming style. Valid options are "
      + QuotedList(SupportedFileNamingStyles) + "."
  }

  /** Quoting a list quotes its head and then its non-empty rest. */
  lemma {:induction false} QuotedCons(head: string, rest: seq<string>)
    requires rest != []
    ensures QuotedList([head] + rest) == "'" + head + "', " + QuotedList(rest)
  {
    assert ([head] + rest)[1..] == rest;
  }

  /** A single name is quoted on its own. */
  lemma {:induction false} QuotedOne(name: string)
    ensures QuotedList([name]) == "'" + name + "'"
  {
  }

  /** Quoting two non-empty lists one after the other is quoting each and
      separating the two with ", ": the separator goes between names only. */
  lemma {:induction false} QuotedConcat(a: seq<string>, b: seq<string>)
    requires a != [] && b != []
    ensures QuotedList(a + b) == QuotedList(a) + ", " + QuotedList(b)
  {
    if |a| == 1 {
      QuotedCons(a[0], b);
      assert a + b == [a[0]] + b;
    } else {
      assert (a + b)[1..] == a[1..] + b;
      QuotedConcat(a[1..], b);
    }
  }

  /** The supported styles as the error message lists them. */
  lemma {:induction false} SupportedStylesQuoted()
    ensures QuotedList(SupportedFileNamingStyles) == "'kebab', 'camel', 'pascal', 'snake'"
  {
    QuotedOne("snake");
    QuotedCons("pascal", ["snake"]);
    QuotedCons("camel", ["pascal", "snake"]);
    QuotedCons("kebab", ["camel", "pascal", "snake"]);
    assert SupportedFileNamingStyles == ["kebab"] + ["camel", "pascal", "snake"];
  }

  /** The error names the offending value and lists exactly the four styles. */
  lemma {:induction false} InvalidStyleMessageText(style: string)
    ensures InvalidStyleMessage(style)
      == "'" + style + "' is not a valid file naming style. Valid options are 'kebab', 'camel', 'pascal', 'snake'."
  {
    SupportedStylesQuoted();
  }

  /** The normalised options: every setting typed and defaulted. */
  datatype Options = Options(
    connectDtoPrefix: string,
    createDtoPrefix: string,
    updateDtoPrefix: string,
    dtoSuffix: string,
    entityPrefix: string,
    entitySuffix: string,
    fileNamingStyle: NamingStyle,
    prettierConfig: string,
    exportRelationModifierClasses: bool,
    outputToNestJsResourceStructure: bool,
    entitiesOnly: bool,
    usePrettier: bool,
    reExport: bool)

  /** The setting under `key`, absent when the key is not configured. */
  function Lookup(config: RawConfig, key: string): (v: Option<string>)
    ensures v.Some? <==> key in config
    ensures v.Some? ==> v.value == config[key]
  {
    if key in config then Some(config[key]) else None
  }

  /** Destructuring with a default: the configured text, or `default` when absent. */
  function Setting(config: RawConfig, key: string, default: string): string {
    Lookup(config, key).GetOr(default)
  }

  /** Option normalisation and validation in `generate`: string options take
      their named defaults, toggles are coerced with their own defaults, and an
      unsupported `fileNamingStyle` is a configuration error. */
  function Normalize(config: RawConfig): (r: Result<Options, string>)
    ensures r.Success? <==> Setting(config, "fileNamingStyle", "camel") in SupportedFileNamingStyles
    ensures r.Failure? ==> r.error == InvalidStyleMessage(Setting(config, "fileNamingStyle", "camel"))
    ensures r.Success? ==> StyleName(r.value.fileNamingStyle) == Setting(config, "fileNamingStyle", "camel")
  {
    var fileNamingStyle := Setting(config, "fileNamingStyle", "camel");
    match ParseNamingStyle(fileNamingStyle)
    case None => Failure(InvalidStyleMessage(fileNamingStyle))
    case Some(style) =>
      Success(Options(
        connectDtoPrefix := Setting(config, "connectDtoPrefix", "Connect"),
        createDtoPrefix := Setting(config, "createDtoPrefix", "Create"),
        updateDtoPrefix := Setting(config, "updateDtoPrefix", "Update"),
        dtoSuffix := Setting(config, "dtoSuffix", "Dto"),
        entityPrefix := Setting(config, "entityPrefix", ""),
        entitySuffix := Setting(config, "entitySuffix", ""),
        fileNamingStyle := style,
        prettierConfig := Setting(config, "prettierConfig", ""),
        exportRelationModifierClasses := StringToBoolean(Lookup(config, "exportRelationModifierClasses"), true),
        outputToNestJsResourceStructure := StringToBoolean(Lookup(config, "outputToNestJsResourceStructure"), false),
        entitiesOnly := StringToBoolean(Lookup(config, "entitiesOnly"), false),
        usePrettier := StringToBoolean(Lookup(config, "usePrettier"), true),
        reExport := StringToBoolean(Lookup(config, "reExport"), false)))
  }

  /** The documented defaults of the textual options. */
  const StringDefaults: map<string, string> := map[
    "connectDtoPrefix" := "Connect", "createDtoPrefix" := "Create",
    "updateDtoPrefix" := "Update", "dtoSuffix" := "Dto",
    "entityPrefix" := "", "entitySuffix" := "",
    "fileNamingStyle" := "camel", "prettierConfig" := ""]

  /** The documented defaults of the boolean toggles. */
  const BoolDefaults: map<string, bool> := map[
    "exportRelationModifierClasses" := true, "outputToNestJsResourceStructure" := false,
    "entitiesOnly" := false, "usePrettier" := true, "reExport" := false]

  /** The textual option named `key` of normalised options. */
  function StringOption(o: Options, key: string): string
    requires key in StringDefaults
  {
    match key
    case "connectDtoPrefix" => o.connectDtoPrefix
    case "createDtoPrefix" => o.createDtoPrefix
    case "updateDtoPrefix" => o.updateDtoPrefix
    case "dtoSuffix" => o.dtoSuffix
    case "entityPrefix" => o.entityPrefix
    case "entitySuffix" => o.entitySuffix
    case "fileNamingStyle" => StyleName(o.fileNamingStyle)
    case _ => o.prettierConfig
  }

  /** The toggle named `key` of normalised options. */
  function BoolOption(o: Options, key: string): bool
    requires key in BoolDefaults
  {
    match key
    case "exportRelationModifierClasses" => o.exportRelationModifierClasses
    case "outputToNestJsResourceStructure" => o.outputToNestJsResourceStructure
    case "entitiesOnly" => o.entitiesOnly
    case "usePrettier" => o.usePrettier
    case _ => o.reExport
  }

  /** Every textual option of an accepted configuration is the configured
      text when the key is set, and its documented default otherwise. */
  lemma NormalizeStringOptions(config: RawConfig, key: string)
    requires Normalize(config).Success?
    requires key in StringDefaults
    ensures StringOption(Normalize(config).value, key)
      == if key in config then config[key] else StringDefaults[key]
  {
  }

  /** Every toggle of an accepted configuration is true for "true", false
      for "false", and its documented default for any other text or when
      the key is not set. */
  lemma {:induction false} NormalizeToggles(config: RawConfig, key: string)
    requires Normalize(config).Success?
    requires key in BoolDefaults
    ensures BoolOption(Normalize(config).value, key)
      == if key in config && config[key] == "true" then true
         else if key in config && config[key] == "false" then false
         else BoolDefaults[key]
  {
    var input := Lookup(config, key);
    if key in config && config[key] == "true" {
      assert input == Some(BoolText(true));
    } else if key in config && config[key] == "false" {
      assert input == Some(BoolText(false));
    }
  }

  /** An empty configuration yields exactly the documented defaults. */
  lemma NormalizeEmpty()
    ensures Normalize(map[]) == Success(Options(
      "Connect", "Create", "Update", "Dto", "", "", Camel, "",
      exportRelationModifierClasses := true,
      outputToNestJsResourceStructure := false,
      entitiesOnly := false,
      usePrettier := true,
      reExport := false))
  {
  }

  /** A configuration is rejected exactly when its naming style is not one of
      the four, with the error naming that style. */
  lemma {:induction false} NormalizeRejects(config: RawConfig, style: string)
    requires config == map["fileNamingStyle" := style]
    ensures Normalize(config).Failure? <==> style !in ["kebab", "camel", "pascal", "snake"]
    ensures Normalize(config).Failure? ==>
      Normalize(config).error == "'" + style + "' is not a valid file naming style. Valid options are 'kebab', 'camel', 'pascal', 'snake'."
  {
    InvalidStyleMessageText(style);
  }
}

/**
 * The generator entry point `generate`: normalise and validate the options,
 * hand them to the DTO synthesiser, aggregate re-export barrels, and choose
 * where the formatter reads its configuration from.
 */
module Generate {
  import opened Wrappers
  import opened Config
  import opened ReExport

  /** What the synthesiser is given: the output directory and the
      normalised options it acts on. */
  datatype SynthesisRequest = SynthesisRequest(
    output: string,
    exportRelationModifierClasses: bool,
    outputToNestJsResourceStructure: bool,
    entitiesOnly: bool,
    connectDtoPrefix: string,
    createDtoPrefix: string,
    updateDtoPrefix: string,
    dtoSuffix: string,
    entityPrefix: string,
    entitySuffix: string,
    fileNamingStyle: NamingStyle)

  /** The request built from the output directory and normalised options. */
  function RequestFor(output: string, o: Options): SynthesisRequest {
    SynthesisRequest(
      output, o.exportRelationModifierClasses, o.outputToNestJsResourceStructure,
      o.entitiesOnly, o.connectDtoPrefix, o.createDtoPrefix, o.updateDtoPrefix,
      o.dtoSuffix, o.entityPrefix, o.entitySuffix, o.fileNamingStyle)
  }

  /** Where the formatter's configuration is resolved from. */
  datatype ConfigSource = ExplicitPath(path: string) | WorkingDirectory

  /** With formatting on, a non-empty `prettierConfig` names the configuration
      to resolve, and otherwise it is resolved from the working directory;
      with formatting off nothing is resolved. */
  function FormatterConfigSource(usePrettier: bool, prettierConfig: string): (c: Option<ConfigSource>)
    ensures c.None? <==> !usePrettier
    ensures c == Some(WorkingDirectory) <==> usePrettier && prettierConfig == ""
    ensures c.Some? && c.value.ExplicitPath? ==> c.value.path == prettierConfig && prettierConfig != ""
  {
    if !usePrettier then None
    else if prettierConfig != "" then Some(ExplicitPath(prettierConfig))
    else Some(WorkingDirectory)
  }

  /** Everything `generate` hands to the file system: the files in write
      order, and the formatter configuration every one of them is formatted
      with (none when formatting is off). */
  datatype WritePlan = WritePlan(writes: seq<FileSpec>, formatWith: Option<ConfigSource>)

  /** `generate` with the synthesiser `run` as a parameter. An unsupported
      naming style fails with the configuration error whatever `run` would
      produce, so nothing is synthesised or written; otherwise the
      synthesiser receives the normalised options, its files are written
      first and unchanged, followed by the barrels when re-export is on, all
      formatted from the configuration source the options select. */
  method Generate(output: string, config: RawConfig, run: SynthesisRequest -> seq<FileSpec>)
    returns (r: Result<WritePlan, string>)
    ensures Normalize(config).Failure? ==> r == Failure(Normalize(config).error)
    ensures Normalize(config).Success? ==> r.Success?
    ensures r.Success? ==>
      var o := Normalize(config).value;
      && Normalize(config).Success?
      && IsWriteList(run(RequestFor(output, o)), o.reExport, r.value.writes)
      && r.value.formatWith == FormatterConfigSource(o.usePrettier, o.prettierConfig)
  {
    match Normalize(config)
    case Failure(e) =>
      r := Failure(e);
    case Success(o) =>
      var results := run(RequestFor(output, o));
      var writes := WriteList(results, o.reExport);
      r := Success(WritePlan(writes, FormatterConfigSource(o.usePrettier, o.prettierConfig)));
  }
}

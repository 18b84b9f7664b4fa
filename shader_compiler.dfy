/**
 * `GlslShaderCompiler::compile`: the shader stage picks the glslang language, the definitions
 * become a `#define` preamble and a `D<name>` process list, and any failure of the front end
 * (parse, link, missing intermediate) yields an empty SPIR-V vector. glslang itself is the
 * `frontEnd` parameter.
 */
module ShaderCompilers {
  import opened Vk

  /** `EShLanguage`. */
  datatype ShaderLanguage =
    | LangVertex | LangTessControl | LangTessEvaluation | LangGeometry | LangFragment | LangCompute
    | LangRayGen | LangAnyHit | LangClosestHit | LangMiss | LangIntersect | LangCallable
    | LangMesh | LangTask

  // vk::ShaderStageFlagBits
  const StageVertex: Flags := 0x1
  const StageTessellationControl: Flags := 0x2
  const StageTessellationEvaluation: Flags := 0x4
  const StageGeometry: Flags := 0x8
  const StageFragment: Flags := 0x10
  const StageCompute: Flags := 0x20
  const StageTaskNV: Flags := 0x40
  const StageMeshNV: Flags := 0x80
  const StageRaygenKHR: Flags := 0x100
  const StageAnyHitKHR: Flags := 0x200
  const StageClosestHitKHR: Flags := 0x400
  const StageMissKHR: Flags := 0x800
  const StageIntersectionKHR: Flags := 0x1000
  const StageCallableKHR: Flags := 0x2000

  /** `FindShaderLanguage`: the fourteen listed stages, and Vertex for any other value. */
  function FindShaderLanguage(stage: Flags): (l: ShaderLanguage)
    ensures l == LangVertex || LanguageStage(l) == stage
  {
    if stage == StageVertex then LangVertex
    else if stage == StageTessellationControl then LangTessControl
    else if stage == StageTessellationEvaluation then LangTessEvaluation
    else if stage == StageGeometry then LangGeometry
    else if stage == StageFragment then LangFragment
    else if stage == StageCompute then LangCompute
    else if stage == StageRaygenKHR then LangRayGen
    else if stage == StageAnyHitKHR then LangAnyHit
    else if stage == StageClosestHitKHR then LangClosestHit
    else if stage == StageMissKHR then LangMiss
    else if stage == StageIntersectionKHR then LangIntersect
    else if stage == StageCallableKHR then LangCallable
    else if stage == StageMeshNV then LangMesh
    else if stage == StageTaskNV then LangTask
    else LangVertex
  }

  /** The stage bit each language is compiled for: the reference table for the mapping. */
  function LanguageStage(l: ShaderLanguage): Flags {
    match l
    case LangVertex => StageVertex
    case LangTessControl => StageTessellationControl
    case LangTessEvaluation => StageTessellationEvaluation
    case LangGeometry => StageGeometry
    case LangFragment => StageFragment
    case LangCompute => StageCompute
    case LangRayGen => StageRaygenKHR
    case LangAnyHit => StageAnyHitKHR
    case LangClosestHit => StageClosestHitKHR
    case LangMiss => StageMissKHR
    case LangIntersect => StageIntersectionKHR
    case LangCallable => StageCallableKHR
    case LangMesh => StageMeshNV
    case LangTask => StageTaskNV
  }

  /**
   * Every language is reached from its own stage and from no other listed stage; a value that is
   * not a listed stage (zero, a combination, an unknown bit) falls back to Vertex.
   */
  lemma FindShaderLanguageInverse(l: ShaderLanguage, stage: Flags)
    ensures FindShaderLanguage(LanguageStage(l)) == l
    ensures l != LangVertex ==> (FindShaderLanguage(stage) == l <==> stage == LanguageStage(l))
    ensures (forall m: ShaderLanguage :: LanguageStage(m) != stage) ==> FindShaderLanguage(stage) == LangVertex
  {
    if forall m: ShaderLanguage :: LanguageStage(m) != stage {
      assert LanguageStage(LangTessControl) != stage && LanguageStage(LangTessEvaluation) != stage;
      assert LanguageStage(LangGeometry) != stage && LanguageStage(LangFragment) != stage;
      assert LanguageStage(LangCompute) != stage && LanguageStage(LangRayGen) != stage;
      assert LanguageStage(LangAnyHit) != stage && LanguageStage(LangClosestHit) != stage;
      assert LanguageStage(LangMiss) != stage && LanguageStage(LangIntersect) != stage;
      assert LanguageStage(LangCallable) != stage && LanguageStage(LangMesh) != stage;
      assert LanguageStage(LangTask) != stage;
    }
  }

  /** One preamble line. */
  function DefineLine(definition: string): string {
    "#define " + definition + "\n"
  }

  /** The preamble: the definitions' `#define` lines, in order. */
  function Preamble(definitions: seq<string>): string {
    if definitions == [] then ""
    else Preamble(definitions[..|definitions| - 1]) + DefineLine(definitions[|definitions| - 1])
  }

  /** The process list: one `D<name>` per definition, in order. */
  function Processes(definitions: seq<string>): seq<string> {
    if definitions == [] then []
    else Processes(definitions[..|definitions| - 1]) + ["D" + definitions[|definitions| - 1]]
  }

  /** The preamble of two runs of definitions is the concatenation of their preambles. */
  lemma {:induction false} PreambleAppend(a: seq<string>, b: seq<string>)
    ensures Preamble(a + b) == Preamble(a) + Preamble(b)
    decreases |b|
  {
    if b == [] {
      assert a + b == a;
    } else {
      var front, last := b[..|b| - 1], b[|b| - 1];
      assert Preamble(a + b) == Preamble(a + front) + DefineLine(last) by {
        assert (a + b)[..|a + b| - 1] == a + front;
        assert (a + b)[|a + b| - 1] == last;
      }
      PreambleAppend(a, front);
      assert Preamble(a) + Preamble(front) + DefineLine(last) == Preamble(a) + (Preamble(front) + DefineLine(last));
    }
  }

  /** Each definition's line sits in the preamble right after the lines of the definitions before it. */
  lemma PreambleContainsEachDefinition(definitions: seq<string>, i: nat)
    requires i < |definitions|
    ensures var at := |Preamble(definitions[..i])|;
      && at + |DefineLine(definitions[i])| <= |Preamble(definitions)|
      && Preamble(definitions)[at..at + |DefineLine(definitions[i])|] == DefineLine(definitions[i])
  {
    var before := definitions[..i];
    var after := definitions[i + 1..];
    assert definitions == before + [definitions[i]] + after;
    PreambleAppend(before + [definitions[i]], after);
    assert (before + [definitions[i]])[..i] == before;
    var line := DefineLine(definitions[i]);
    assert Preamble(definitions) == Preamble(before) + line + Preamble(after);
    var at := |Preamble(before)|;
    assert Preamble(definitions)[at..at + |line|] == line;
  }

  /** The process list pairs up with the definitions one to one. */
  lemma {:induction false} ProcessesPointwise(definitions: seq<string>)
    ensures |Processes(definitions)| == |definitions|
    ensures forall i :: 0 <= i < |definitions| ==> Processes(definitions)[i] == "D" + definitions[i]
    decreases |definitions|
  {
    if definitions != [] {
      var front := definitions[..|definitions| - 1];
      ProcessesPointwise(front);
      assert forall i :: 0 <= i < |front| ==> front[i] == definitions[i];
    }
  }

  /** What glslang is handed: the language, the source, the entry point and the definitions. */
  datatype ShaderJob = ShaderJob(language: ShaderLanguage, source: string, entryPoint: string,
                                 preamble: string, processes: seq<string>)

  /** How far glslang gets with a job. */
  datatype FrontEndResult = ParseFailed | LinkFailed | NoIntermediate | Translated(spirv: seq<uint32>)

  function Job(stage: Flags, source: string, entryPoint: string, definitions: seq<string>): ShaderJob {
    ShaderJob(FindShaderLanguage(stage), source, entryPoint, Preamble(definitions), Processes(definitions))
  }

  /**
   * `compile`: builds the preamble and the process list in one loop, hands glslang the job and
   * returns its SPIR-V, or nothing when parsing, linking or the intermediate fails.
   */
  method Compile(stage: Flags, source: string, entryPoint: string, definitions: seq<string>,
                 frontEnd: ShaderJob -> FrontEndResult) returns (spirv: seq<uint32>)
    ensures var result := frontEnd(Job(stage, source, entryPoint, definitions));
      && (result.Translated? ==> spirv == result.spirv)
      && (!result.Translated? ==> spirv == [])
  {
    var language := FindShaderLanguage(stage);
    var definitionsString := "";
    var processes: seq<string> := [];
    for i := 0 to |definitions|
      invariant definitionsString == Preamble(definitions[..i])
      invariant processes == Processes(definitions[..i])
    {
      assert definitions[..i + 1][..i] == definitions[..i];
      definitionsString := definitionsString + "#define " + definitions[i] + "\n";
      processes := processes + ["D" + definitions[i]];
    }
    assert definitions[..|definitions|] == definitions;
    var result := frontEnd(ShaderJob(language, source, entryPoint, definitionsString, processes));
    match result {
      case Translated(code) => spirv := code;
      case _ => spirv := [];
    }
  }
}

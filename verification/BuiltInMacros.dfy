/** What each macro stands for when it is written in a field of a preset: the three expanders of
    cmCMakePresetsGraph.cxx and cmCMakePresetsGraphInternal.h, seen through the scanner. */
module BuiltInMacros {
  import opened Options
  import opened MacroScanner
  import opened Environment

  /** A macro as it is written, expanded where the preset's variables have the values given. */
  function Written(cx: Context, values: EnvMap, ns: string, name: string): Expansion {
    Expand(Meaning(cx, values), MacroText(ns, name))
  }

  lemma WrittenIsMeaning(cx: Context, values: EnvMap, ns: string, name: string)
    requires ns in {"", "env", "penv", "vendor"} && '}' !in name
    ensures Written(cx, values, ns, name) == MacroMeaning(cx, values, ns, name)
  {
    assert IsValidNamespace(ns) by {
      assert VALID_NAMESPACES[0] == "" && VALID_NAMESPACES[1] == "env";
      assert VALID_NAMESPACES[2] == "penv" && VALID_NAMESPACES[3] == "vendor";
    }
    WrittenMacro(Meaning(cx, values), ns, name);
  }

  lemma SourceMacros(cx: Context, values: EnvMap)
    ensures Written(cx, values, "", "sourceDir") == Ok(cx.sourceDir)
    ensures Written(cx, values, "", "sourceParentDir") == Ok(cx.sourceParentDir)
    ensures Written(cx, values, "", "sourceDirName") == Ok(cx.sourceDirName)
    ensures Written(cx, values, "", "dollar") == Ok("$")
  {
    WrittenIsMeaning(cx, values, "", "sourceDir");
    WrittenIsMeaning(cx, values, "", "sourceParentDir");
    WrittenIsMeaning(cx, values, "", "sourceDirName");
    WrittenIsMeaning(cx, values, "", "dollar");
  }

  /** A hidden preset has no generator of its own to name. */
  lemma PresetMacros(cx: Context, values: EnvMap)
    ensures Written(cx, values, "", "presetName") == Ok(cx.presetName)
    ensures !cx.hidden ==> Written(cx, values, "", "generator") == Ok(cx.generator)
    ensures cx.hidden ==> Written(cx, values, "", "generator") == Ok("")
  {
    WrittenIsMeaning(cx, values, "", "presetName");
    WrittenIsMeaning(cx, values, "", "generator");
  }

  /** Macros that came with a version of the file format are errors before it. */
  lemma VersionedMacros(cx: Context, values: EnvMap)
    ensures Written(cx, values, "", "hostSystemName") == if cx.version >= 3 then Ok(cx.hostSystemName) else Error
    ensures Written(cx, values, "", "pathListSep") == if cx.version >= 5 then Ok(cx.pathListSep) else Error
    ensures cx.version < 4 ==> Written(cx, values, "", "fileDir") == Error
    ensures cx.version >= 4 && cx.includeFileDir.None? ==>
              Written(cx, values, "", "fileDir") == Ok(cx.presetFileDir)
    ensures cx.version >= 4 && cx.includeFileDir.Some? ==>
              Written(cx, values, "", "fileDir") == Ok(cx.includeFileDir.value)
  {
    WrittenIsMeaning(cx, values, "", "hostSystemName");
    WrittenIsMeaning(cx, values, "", "pathListSep");
    WrittenIsMeaning(cx, values, "", "fileDir");
  }

  const ALWAYS: set<string> := {"sourceDir", "sourceParentDir", "sourceDirName", "dollar", "presetName", "generator"}

  /** Exactly these names can be used without a namespace; any other is an error. */
  lemma PlainNames(cx: Context, values: EnvMap, name: string)
    requires '}' !in name
    ensures Written(cx, values, "", name).Ok? <==>
            name in ALWAYS || (name == "hostSystemName" && cx.version >= 3) || (name == "fileDir" && cx.version >= 4)
            || (name == "pathListSep" && cx.version >= 5)
    ensures !Written(cx, values, "", name).Ok? ==> Written(cx, values, "", name) == Error
  {
    WrittenIsMeaning(cx, values, "", name);
  }

  /** What the process environment has; a variable that is not set reads as the empty string. */
  function FromProcess(cx: Context, name: string): string {
    if name in cx.processEnv then cx.processEnv[name] else ""
  }

  /** $penv reads the process environment, even when the preset sets the variable. $env reads the preset's value if it
      sets one that is not null, and the process environment otherwise. Without a name both are errors. */
  lemma EnvironmentMacros(cx: Context, values: EnvMap, name: string)
    requires '}' !in name
    ensures name != "" ==> Written(cx, values, "penv", name) == Ok(FromProcess(cx, name))
    ensures name != "" && name in values && values[name].Some? ==>
              Written(cx, values, "env", name) == Ok(values[name].value)
    ensures name != "" && !(name in values && values[name].Some?) ==>
              Written(cx, values, "env", name) == Ok(FromProcess(cx, name))
    ensures name == "" ==> Written(cx, values, "env", name) == Written(cx, values, "penv", name) == Error
  {
    WrittenIsMeaning(cx, values, "env", name);
    WrittenIsMeaning(cx, values, "penv", name);
  }

  /** A vendor's macro is never an error: it is ignored. */
  lemma VendorsMacro(cx: Context, values: EnvMap, name: string)
    requires '}' !in name
    ensures Written(cx, values, "vendor", name) == Ignore
  {
    WrittenIsMeaning(cx, values, "vendor", name);
  }

  /** A variable whose text is a macro other than a variable of the preset expands to what the macro stands for in any
      field. */
  lemma VariableIsWritten(cx: Context, orig: EnvMap, values: EnvMap, path: set<string>, key: string, ns: string,
                          name: string)
    requires ns in {"", "env", "penv", "vendor"} && '}' !in name && SameShape(orig, values)
    requires key in orig && key !in path && orig[key] == Some(MacroText(ns, name)) && !IsPresetVariable(orig, ns, name)
    ensures Eval(cx, orig, path, key) == Written(cx, values, ns, name)
  {
    WrittenIsMeaning(cx, values, ns, name);
    WrittenMacro(EvalMacros(cx, orig, path + {key}), ns, name);
    OtherMacro(cx, orig, path + {key}, ns, name);
  }
}

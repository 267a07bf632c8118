/** Expansion of a preset's environment: ExpandMacros, ExpandMacro and VisitEnv of
    cmCMakePresetsGraph.cxx, mutually recursive over one shared status map, against the
    equations "a value is its original text with $env{j} read as the value of j". */
module Environment {
  import opened Options
  import opened Digraph
  import opened MacroScanner

  type EnvMap = map<string, Option<string>>

  /** The constants the built-in expanders read: the graph's directories, the preset, the process environment. */
  datatype Context = Context(
    version: int,
    sourceDir: string, sourceParentDir: string, sourceDirName: string,
    hostSystemName: string, pathListSep: string, includeFileDir: Option<string>,
    presetName: string, hidden: bool, generator: string, presetFileDir: string,
    processEnv: map<string, string>)

  /** BaseMacroExpander. */
  function BaseMacro(cx: Context, ns: string, name: string): Expansion {
    if ns != "" then Ignore
    else if name == "sourceDir" then Ok(cx.sourceDir)
    else if name == "sourceParentDir" then Ok(cx.sourceParentDir)
    else if name == "sourceDirName" then Ok(cx.sourceDirName)
    else if name == "dollar" then Ok("$")
    else if name == "hostSystemName" then if cx.version < 3 then Error else Ok(cx.hostSystemName)
    else if name == "fileDir" && cx.includeFileDir.Some? then
      if cx.version < 4 then Error else Ok(cx.includeFileDir.value)
    else if name == "pathListSep" then if cx.version < 5 then Error else Ok(cx.pathListSep)
    else Ignore
  }

  /** PresetMacroExpander. */
  function PresetMacro(cx: Context, ns: string, name: string): Expansion {
    if ns != "" then Ignore
    else if name == "presetName" then Ok(cx.presetName)
    else if name == "generator" then Ok(if cx.hidden then "" else cx.generator)
    else if name == "fileDir" then if cx.version < 4 then Error else Ok(cx.presetFileDir)
    else Ignore
  }

  /** The part of EnvironmentMacroExpander that reads the process environment. */
  function ProcessEnvMacro(cx: Context, ns: string, name: string): Expansion {
    if ns == "env" || ns == "penv" then
      if name == "" then Error
      else Ok(if name in cx.processEnv then cx.processEnv[name] else "")
    else Ignore
  }

  predicate IsPresetVariable(env: EnvMap, ns: string, name: string) {
    ns == "env" && name != "" && name in env && env[name].Some?
  }

  /** ExpandMacro: the expanders in turn, where the environment expander gives fromEnv; the first that does not ignore
      the macro decides. What none of them knows is ignored if it belongs to a vendor, and an error otherwise. */
  function FirstAnswer(cx: Context, ns: string, name: string, fromEnv: Expansion): Expansion {
    var base := BaseMacro(cx, ns, name);
    if base != Ignore then base else
    var preset := PresetMacro(cx, ns, name);
    if preset != Ignore then preset
    else if fromEnv != Ignore then fromEnv
    else if ns == "vendor" then Ignore else Error
  }

  /** What a macro means when the preset's own variables have the values given. */
  function MacroMeaning(cx: Context, values: EnvMap, ns: string, name: string): Expansion {
    FirstAnswer(cx, ns, name,
                if IsPresetVariable(values, ns, name) then Ok(values[name].value) else ProcessEnvMacro(cx, ns, name))
  }

  function Meaning(cx: Context, values: EnvMap): Macros {
    (ns, name) => MacroMeaning(cx, values, ns, name)
  }

  /** The preset variables a text refers to. */
  function ReferencesOf(orig: EnvMap, text: string): set<string> {
    set call | call in Calls(text) && IsPresetVariable(orig, call.0, call.1) :: call.1
  }

  /** Which variable's original text refers to which variables. */
  function References(orig: EnvMap): Graph<string> {
    map k | k in orig :: if orig[k].Some? then ReferencesOf(orig, orig[k].value) else {}
  }

  predicate SameShape(orig: EnvMap, values: EnvMap) {
    values.Keys == orig.Keys && forall k | k in orig :: orig[k].Some? <==> values[k].Some?
  }

  /** The equations: every value is its original text, expanded under the values themselves. */
  ghost predicate IsSolution(cx: Context, orig: EnvMap, values: EnvMap) {
    && SameShape(orig, values)
    && forall k | k in orig && orig[k].Some? ::
         Expand(Meaning(cx, values), orig[k].value) == Ok(values[k].value)
  }

  /** No variable depends on itself, and the equations have a solution. */
  ghost predicate Solvable(cx: Context, orig: EnvMap) {
    Acyclic(References(orig)) && exists values :: IsSolution(cx, orig, values)
  }

  ghost predicate Agree(orig: EnvMap, v: EnvMap, w: EnvMap, keys: seq<string>) {
    SameShape(orig, v) && SameShape(orig, w) && forall k | k in keys && k in orig :: v[k] == w[k]
  }

  /** A text's expansion depends on the values of the variables it refers to and on nothing else. */
  lemma ExpandFrame(cx: Context, orig: EnvMap, v: EnvMap, w: EnvMap, text: string)
    requires SameShape(orig, v) && SameShape(orig, w)
    requires forall k | k in ReferencesOf(orig, text) :: v[k] == w[k]
    ensures Expand(Meaning(cx, v), text) == Expand(Meaning(cx, w), text)
  {
    forall call | call in Calls(text) ensures Meaning(cx, v)(call.0, call.1) == Meaning(cx, w)(call.0, call.1) {
      if IsPresetVariable(orig, call.0, call.1) {
        assert call.1 in ReferencesOf(orig, text);
      }
    }
    AdvanceFrame(Meaning(cx, v), Meaning(cx, w), text);
  }

  /** At most one assignment of values solves the equations of an environment without reference cycles. */
  lemma UniqueSolution(cx: Context, orig: EnvMap, v: EnvMap, w: EnvMap)
    requires Acyclic(References(orig)) && IsSolution(cx, orig, v) && IsSolution(cx, orig, w)
    ensures v == w
  {
    var g := References(orig);
    AcyclicIffOrdered(g);
    var order :| Ordered(g, order) && Elements(order) == g.Keys;
    AgreeAlong(cx, orig, v, w, order);
    forall k | k in orig ensures v[k] == w[k] {
      assert k in Elements(order);
    }
  }

  lemma {:induction false} AgreeAlong(cx: Context, orig: EnvMap, v: EnvMap, w: EnvMap, order: seq<string>)
    requires IsSolution(cx, orig, v) && IsSolution(cx, orig, w) && Ordered(References(orig), order)
    ensures Agree(orig, v, w, order)
  {
    if order != [] {
      var init, k := order[..|order| - 1], order[|order| - 1];
      assert forall i | 0 <= i < |init| :: init[..i] == order[..i];
      AgreeAlong(cx, orig, v, w, init);
      assert References(orig)[k] <= Elements(init);
      if orig[k].Some? {
        ExpandFrame(cx, orig, v, w, orig[k].value);
      }
      assert forall x | x in order :: x in init || x == k;
    }
  }

  /** The built-in expanders give a dollar sign back, so escaped text survives in every preset. */
  lemma EscapedTextSurvives(cx: Context, values: EnvMap, text: string)
    ensures Expand(Meaning(cx, values), EscapeDollars(text)) == Ok(text)
  {
    DollarRoundTrip(Meaning(cx, values), text);
  }

  // ---- A reading that needs no shared state ----

  /** What the macros mean while the variables of path are being expanded. */
  ghost function EvalMacro(cx: Context, orig: EnvMap, path: set<string>, ns: string, name: string): Expansion
    decreases orig.Keys - path, 1
  {
    FirstAnswer(cx, ns, name,
                if IsPresetVariable(orig, ns, name) then Eval(cx, orig, path, name) else ProcessEnvMacro(cx, ns, name))
  }

  /** What a variable expands to while those of path are being expanded: meeting one of them again is an error. */
  ghost function Eval(cx: Context, orig: EnvMap, path: set<string>, key: string): Expansion
    requires key in orig && orig[key].Some?
    decreases orig.Keys - path, 0
  {
    if key in path then Error else Expand(EvalMacros(cx, orig, path + {key}), orig[key].value)
  }

  ghost function EvalMacros(cx: Context, orig: EnvMap, path: set<string>): Macros
    decreases orig.Keys - path, 2
  {
    (ns, name) => EvalMacro(cx, orig, path, ns, name)
  }

  lemma MacroAt(cx: Context, orig: EnvMap, path: set<string>, ns: string, name: string)
    ensures EvalMacros(cx, orig, path)(ns, name) == EvalMacro(cx, orig, path, ns, name)
  {
  }

  /** A variable of the preset is read by what it expands to. No other expander knows it, so what it ignores is an
      error. */
  lemma VariableMacro(cx: Context, orig: EnvMap, path: set<string>, ns: string, name: string)
    requires IsPresetVariable(orig, ns, name)
    ensures var e := Eval(cx, orig, path, name);
            EvalMacros(cx, orig, path)(ns, name) == if e == Ignore then Error else e
  {
    MacroAt(cx, orig, path, ns, name);
  }

  lemma OtherMacro(cx: Context, orig: EnvMap, path: set<string>, ns: string, name: string)
    requires !IsPresetVariable(orig, ns, name)
    ensures EvalMacros(cx, orig, path)(ns, name) == FirstAnswer(cx, ns, name, ProcessEnvMacro(cx, ns, name))
  {
    MacroAt(cx, orig, path, ns, name);
  }

  /** Every variable that one of the keys refers to is one of the keys. */
  predicate Closed(orig: EnvMap, keys: set<string>) {
    forall k | k in keys && k in orig :: References(orig)[k] <= keys
  }

  /** What a variable expands to does not depend on how it was reached, as long as nothing below it is in progress. */
  lemma {:induction false} EvalSame(cx: Context, orig: EnvMap, keys: set<string>, p: set<string>, q: set<string>,
                                    key: string)
    requires Closed(orig, keys) && key in keys && key in orig && orig[key].Some? && q * keys <= p
    requires Eval(cx, orig, p, key).Ok?
    ensures Eval(cx, orig, q, key) == Eval(cx, orig, p, key)
    decreases orig.Keys - p
  {
    var text := orig[key].value;
    assert key !in q by {
      assert key in q ==> key in q * keys;
    }
    var m, m' := EvalMacros(cx, orig, p + {key}), EvalMacros(cx, orig, q + {key});
    ExpandOkIff(m, text);
    forall call | call in Calls(text) ensures m(call.0, call.1) == m'(call.0, call.1) {
      if IsPresetVariable(orig, call.0, call.1) {
        assert call.1 in ReferencesOf(orig, text);
        VariableMacro(cx, orig, p + {key}, call.0, call.1);
        VariableMacro(cx, orig, q + {key}, call.0, call.1);
        EvalSame(cx, orig, keys, p + {key}, q + {key}, call.1);
      } else {
        OtherMacro(cx, orig, p + {key}, call.0, call.1);
        OtherMacro(cx, orig, q + {key}, call.0, call.1);
      }
    }
    AdvanceFrame(m, m', text);
  }

  lemma AllClosed(orig: EnvMap)
    ensures Closed(orig, orig.Keys)
  {
  }

  /** With nothing in progress a variable expands as it did on the way. */
  lemma EvalAlone(cx: Context, orig: EnvMap, path: set<string>, key: string)
    requires key in orig && orig[key].Some? && Eval(cx, orig, path, key).Ok?
    ensures Eval(cx, orig, {}, key) == Eval(cx, orig, path, key)
  {
    AllClosed(orig);
    EvalSame(cx, orig, orig.Keys, path, {}, key);
  }

  /** A variable that expands reaches no variable in progress. */
  lemma {:induction false} EvalAvoids(cx: Context, orig: EnvMap, path: set<string>, w: seq<string>)
    requires IsWalk(References(orig), w) && orig[w[0]].Some? && Eval(cx, orig, path, w[0]).Ok?
    ensures forall i | 0 <= i < |w| :: w[i] !in path
    decreases |w|
  {
    if |w| > 1 {
      var text := orig[w[0]].value;
      assert w[1] in ReferencesOf(orig, text);
      var call :| call in Calls(text) && IsPresetVariable(orig, call.0, call.1) && call.1 == w[1];
      ExpandOkIff(EvalMacros(cx, orig, path + {w[0]}), text);
      VariableMacro(cx, orig, path + {w[0]}, call.0, call.1);
      EvalAvoids(cx, orig, path + {w[0]}, w[1..]);
      assert forall i | 1 <= i < |w| :: w[i] == w[1..][i - 1];
    }
  }

  /** A variable on a cycle of references does not expand. */
  lemma CycleFound(cx: Context, orig: EnvMap, w: seq<string>)
    requires IsWalk(References(orig), w) && |w| > 1 && w[0] == w[|w| - 1]
    ensures orig[w[0]].Some? && !Eval(cx, orig, {}, w[0]).Ok?
  {
    assert w[1] in References(orig)[w[0]];
    var text := orig[w[0]].value;
    var call :| call in Calls(text) && IsPresetVariable(orig, call.0, call.1) && call.1 == w[1];
    if Eval(cx, orig, {}, w[0]).Ok? {
      ExpandOkIff(EvalMacros(cx, orig, {} + {w[0]}), text);
      VariableMacro(cx, orig, {} + {w[0]}, call.0, call.1);
      assert w[1..][|w| - 2] == w[0];
      EvalAvoids(cx, orig, {} + {w[0]}, w[1..]);
    }
  }

  ghost predicate AllExpand(cx: Context, orig: EnvMap) {
    forall k | k in orig && orig[k].Some? :: Eval(cx, orig, {}, k).Ok?
  }

  /** The values that the variables expand to. */
  ghost function EvalValues(cx: Context, orig: EnvMap): EnvMap
    requires AllExpand(cx, orig)
  {
    map k | k in orig :: if orig[k].None? then None else Some(Eval(cx, orig, {}, k).text)
  }

  lemma EvalIsSolution(cx: Context, orig: EnvMap)
    requires AllExpand(cx, orig)
    ensures IsSolution(cx, orig, EvalValues(cx, orig))
  {
    var values := EvalValues(cx, orig);
    forall k | k in orig && orig[k].Some? ensures Expand(Meaning(cx, values), orig[k].value) == Ok(values[k].value) {
      SatisfiesEquation(cx, orig, values, k);
    }
  }

  lemma SatisfiesEquation(cx: Context, orig: EnvMap, values: EnvMap, k: string)
    requires AllExpand(cx, orig) && values == EvalValues(cx, orig) && k in orig && orig[k].Some?
    ensures Expand(Meaning(cx, values), orig[k].value) == Ok(values[k].value)
  {
    var text := orig[k].value;
    var m := EvalMacros(cx, orig, {} + {k});
    ExpandOkIff(m, text);
    forall call | call in Calls(text) ensures m(call.0, call.1) == Meaning(cx, values)(call.0, call.1) {
      if IsPresetVariable(orig, call.0, call.1) {
        VariableMacro(cx, orig, {} + {k}, call.0, call.1);
        EvalAlone(cx, orig, {} + {k}, call.1);
      } else {
        OtherMacro(cx, orig, {} + {k}, call.0, call.1);
      }
    }
    AdvanceFrame(m, Meaning(cx, values), text);
  }

  lemma EarlierDisjoint(order: seq<string>, i: nat, j: nat, path: set<string>)
    requires j < i < |order| && path !! Elements(order[..i + 1]) && forall k | 0 <= k < i :: order[k] != order[i]
    ensures path + {order[i]} !! Elements(order[..j + 1])
  {
    forall x | x in Elements(order[..j + 1]) ensures x !in path + {order[i]} {
      var k :| 0 <= k <= j && order[k] == x;
      assert order[..i + 1][k] == x;
      assert x in Elements(order[..i + 1]);
    }
  }

  /** Every solution of an environment without reference cycles gives the variables what they expand to. */
  lemma {:induction false} SolutionsAgree(cx: Context, orig: EnvMap, values: EnvMap, order: seq<string>, i: nat,
                                          path: set<string>)
    requires IsSolution(cx, orig, values) && Ordered(References(orig), order)
    requires i < |order| && orig[order[i]].Some? && path !! Elements(order[..i + 1])
    ensures Eval(cx, orig, path, order[i]) == Ok(values[order[i]].value)
    decreases i
  {
    var key := order[i];
    var text, m := orig[key].value, EvalMacros(cx, orig, path + {key});
    assert key in Elements(order[..i + 1]);
    forall call | call in Calls(text) ensures m(call.0, call.1) == Meaning(cx, values)(call.0, call.1) {
      if IsPresetVariable(orig, call.0, call.1) {
        assert call.1 in References(orig)[key] && call.1 in Elements(order[..i]);
        var j :| 0 <= j < i && order[j] == call.1;
        EarlierDisjoint(order, i, j, path);
        SolutionsAgree(cx, orig, values, order, j, path + {key});
        VariableMacro(cx, orig, path + {key}, call.0, call.1);
      } else {
        OtherMacro(cx, orig, path + {key}, call.0, call.1);
      }
    }
    AdvanceFrame(m, Meaning(cx, values), text);
  }

  /** The environment has a solution exactly when every variable expands, and then the solution is what they expand
      to. */
  lemma SolvableIff(cx: Context, orig: EnvMap)
    ensures Solvable(cx, orig) <==> AllExpand(cx, orig)
    ensures Solvable(cx, orig) ==> forall values :: IsSolution(cx, orig, values) <==> values == EvalValues(cx, orig)
  {
    if AllExpand(cx, orig) {
      EvalIsSolution(cx, orig);
      forall w | IsWalk(References(orig), w) && |w| > 1 ensures w[0] != w[|w| - 1] {
        if w[0] == w[|w| - 1] {
          CycleFound(cx, orig, w);
        }
      }
      forall values: EnvMap ensures IsSolution(cx, orig, values) ==> values == EvalValues(cx, orig) {
        if IsSolution(cx, orig, values) {
          UniqueSolution(cx, orig, values, EvalValues(cx, orig));
        }
      }
    }
    if Solvable(cx, orig) {
      var values :| IsSolution(cx, orig, values);
      SolutionExpands(cx, orig, values);
    }
  }

  lemma SolutionExpands(cx: Context, orig: EnvMap, values: EnvMap)
    requires Acyclic(References(orig)) && IsSolution(cx, orig, values)
    ensures AllExpand(cx, orig)
  {
    var g := References(orig);
    AcyclicIffOrdered(g);
    var order :| Ordered(g, order) && Elements(order) == g.Keys;
    forall k | k in orig && orig[k].Some? ensures Eval(cx, orig, {}, k).Ok? {
      assert k in Elements(order);
      var i :| 0 <= i < |order| && order[i] == k;
      SolutionsAgree(cx, orig, values, order, i, {});
    }
  }

  // ---- The expansion itself ----

  /** The result of a visit, without a text. */
  datatype MacroResult = MacroOk | MacroIgnore | MacroError

  function ResultOf(e: Expansion): MacroResult {
    match e
    case Ok(_) => MacroOk
    case Ignore => MacroIgnore
    case Error => MacroError
  }

  function KeysWith(cycles: map<string, CycleStatus>, status: CycleStatus): set<string> {
    set k | k in cycles && cycles[k] == status
  }

  lemma KeysWithUpdate(cycles: map<string, CycleStatus>, key: string, status: CycleStatus, other: CycleStatus)
    requires key in cycles && other != status
    ensures KeysWith(cycles[key := status], status) == KeysWith(cycles, status) + {key}
    ensures KeysWith(cycles[key := status], other) == KeysWith(cycles, other) - {key}
  {
  }

  /** A verified variable holds what it expands to. */
  ghost predicate Holds(cx: Context, orig: EnvMap, env: EnvMap, k: string) {
    k in orig && k in env && orig[k].Some? && env[k].Some? && Eval(cx, orig, {}, k) == Ok(env[k].value)
  }

  /** Verified variables hold their expansions and refer to verified ones; the others hold their original texts. */
  ghost predicate ValidState(cx: Context, orig: EnvMap, env: EnvMap, cycles: map<string, CycleStatus>) {
    && cycles.Keys == orig.Keys && SameShape(orig, env)
    && Closed(orig, KeysWith(cycles, Verified))
    && (forall k {:trigger Holds(cx, orig, env, k)} | k in KeysWith(cycles, Verified) :: Holds(cx, orig, env, k))
    && (forall k | k in orig && cycles[k] != Verified :: env[k] == orig[k])
  }

  /** A verified variable is read by the value it holds, whatever is in progress. */
  lemma VerifiedAnswer(cx: Context, orig: EnvMap, env: EnvMap, cycles: map<string, CycleStatus>, key: string)
    requires ValidState(cx, orig, env, cycles) && key in cycles && cycles[key] == Verified
    ensures Holds(cx, orig, env, key)
    ensures Eval(cx, orig, KeysWith(cycles, InProgress), key) == Ok(env[key].value)
  {
    assert key in KeysWith(cycles, Verified) && Holds(cx, orig, env, key);
    assert KeysWith(cycles, InProgress) * KeysWith(cycles, Verified) <= {};
    EvalSame(cx, orig, KeysWith(cycles, Verified), {}, KeysWith(cycles, InProgress), key);
  }

  lemma ClosedMore(orig: EnvMap, keys: set<string>, key: string)
    requires Closed(orig, keys) && key in orig && References(orig)[key] <= keys
    ensures Closed(orig, keys + {key})
  {
  }

  /** Storing the expansion of a variable that refers to verified ones. */
  lemma StoreStep(cx: Context, orig: EnvMap, env: EnvMap, cycles: map<string, CycleStatus>, key: string,
                  path: set<string>, text: string)
    requires ValidState(cx, orig, env, cycles) && key in orig && orig[key].Some? && cycles[key] != Verified
    requires References(orig)[key] <= KeysWith(cycles, Verified) && Eval(cx, orig, path, key) == Ok(text)
    ensures ValidState(cx, orig, env[key := Some(text)], cycles[key := Verified])
  {
    var env', cycles' := env[key := Some(text)], cycles[key := Verified];
    KeysWithUpdate(cycles, key, Verified, InProgress);
    ClosedMore(orig, KeysWith(cycles, Verified), key);
    EvalAlone(cx, orig, path, key);
    AllHoldStill(cx, orig, env, cycles, key, text);
  }

  lemma AllHoldStill(cx: Context, orig: EnvMap, env: EnvMap, cycles: map<string, CycleStatus>, key: string,
                     text: string)
    requires ValidState(cx, orig, env, cycles)
    requires key in orig && orig[key].Some? && Eval(cx, orig, {}, key) == Ok(text)
    ensures forall k {:trigger Holds(cx, orig, env[key := Some(text)], k)} | k in KeysWith(cycles, Verified) + {key} ::
              Holds(cx, orig, env[key := Some(text)], k)
  {
    forall k | k in KeysWith(cycles, Verified) + {key} ensures Holds(cx, orig, env[key := Some(text)], k) {
      HoldsStill(cx, orig, env, cycles, key, text, k);
    }
  }

  lemma HoldsStill(cx: Context, orig: EnvMap, env: EnvMap, cycles: map<string, CycleStatus>, key: string, text: string,
                   k: string)
    requires ValidState(cx, orig, env, cycles) && k in KeysWith(cycles, Verified) + {key}
    requires key in orig && orig[key].Some? && Eval(cx, orig, {}, key) == Ok(text)
    ensures Holds(cx, orig, env[key := Some(text)], k)
  {
    if k != key {
      assert Holds(cx, orig, env, k);
    }
  }

  /** The scan of the first i characters has come to p, and all they refer to is verified. */
  ghost predicate Scanned(m: Macros, orig: EnvMap, verified: set<string>, text: string, i: nat, p: Scan) {
    && i <= |text| && p.At? && Advance(m, START, text[..i]) == p && p.mode == ModeAfter(text[..i])
    && ReferencesOf(orig, text[..i]) <= verified
  }

  lemma ScanStart(m: Macros, orig: EnvMap, verified: set<string>, text: string)
    ensures Scanned(m, orig, verified, text, 0, START)
  {
    assert text[..0] == "";
  }

  lemma ScanCopies(m: Macros, orig: EnvMap, verified: set<string>, text: string, i: nat, p: Scan)
    requires i < |text| && Scanned(m, orig, verified, text, i, p) && !IsCall(p.mode, text[i])
    ensures Scanned(m, orig, verified, text, i + 1, At(NextMode(p.mode, text[i]), p.result + Copied(p.mode, text[i])))
  {
    assert text[..i + 1][..i] == text[..i];
    ReferencesGrow(orig, text, i);
  }

  lemma ScanCalls(m: Macros, orig: EnvMap, verified: set<string>, now: set<string>, text: string, i: nat, p: Scan,
                  e: Expansion)
    requires i < |text| && Scanned(m, orig, verified, text, i, p) && IsCall(p.mode, text[i]) && verified <= now
    requires m(p.mode.ns, p.mode.name) == e && e.Ok?
    requires IsPresetVariable(orig, p.mode.ns, p.mode.name) ==> p.mode.name in now
    ensures Scanned(m, orig, now, text, i + 1, At(Default, p.result + e.text))
  {
    assert text[..i + 1][..i] == text[..i];
    ReferencesGrow(orig, text, i);
  }

  /** A failing macro decides the expansion of the whole text. */
  lemma ScanStops(m: Macros, orig: EnvMap, verified: set<string>, text: string, i: nat, p: Scan)
    requires i < |text| && Scanned(m, orig, verified, text, i, p) && IsCall(p.mode, text[i])
    requires !m(p.mode.ns, p.mode.name).Ok?
    ensures Expand(m, text) == m(p.mode.ns, p.mode.name)
  {
    var e := m(p.mode.ns, p.mode.name);
    assert text[..i + 1][..i] == text[..i];
    assert text == text[..i + 1] + text[i + 1..];
    AdvanceConcat(m, START, text[..i + 1], text[i + 1..]);
    StoppedStays(m, Stopped(e), text[i + 1..]);
  }

  class EnvironmentExpander {
    const cx: Context
    var env: EnvMap
    var cycles: map<string, CycleStatus>
    ghost const orig: EnvMap

    ghost predicate Valid()
      reads this
    {
      ValidState(cx, orig, env, cycles)
    }

    ghost function WithStatus(status: CycleStatus): set<string>
      reads this
    {
      KeysWith(cycles, status)
    }

    constructor (cx: Context, environment: EnvMap)
      ensures Valid() && this.cx == cx && orig == environment && env == environment
      ensures WithStatus(Unvisited) == environment.Keys && WithStatus(InProgress) == {}
    {
      this.cx := cx;
      env := environment;
      orig := environment;
      cycles := map k | k in environment :: Unvisited;
    }

    /** A successful visit only adds to what is verified, and leaves what is in progress as it was. */
    twostate predicate Extends()
      reads this
    {
      && WithStatus(InProgress) == old(WithStatus(InProgress))
      && old(WithStatus(Verified)) <= WithStatus(Verified)
      && WithStatus(Unvisited) <= old(WithStatus(Unvisited))
    }

    /** The result is that of Eval with the variables in progress as the path. */
    method VisitEnv(key: string) returns (r: MacroResult)
      requires Valid() && key in orig && orig[key].Some?
      modifies this
      ensures r == ResultOf(Eval(cx, orig, old(WithStatus(InProgress)), key))
      ensures r == MacroOk ==> Valid() && Extends() && key in WithStatus(Verified)
      decreases WithStatus(Unvisited), 0
    {
      if cycles[key] == Verified {
        VerifiedAnswer(cx, orig, env, cycles, key);
        return MacroOk;
      }
      if cycles[key] == InProgress {
        return MacroError;
      }
      ghost var path := WithStatus(InProgress);
      Mark(key);
      var e := ExpandMacros(env[key].value);
      assert e == Eval(cx, orig, path, key);
      if !e.Ok? {
        return ResultOf(e);
      }
      Store(key, e.text, path);
      return MacroOk;
    }

    method Mark(key: string)
      requires Valid() && key in orig && cycles[key] == Unvisited
      modifies this`cycles
      ensures Valid() && env[key] == orig[key] && cycles[key] == InProgress
      ensures WithStatus(InProgress) == old(WithStatus(InProgress)) + {key} && key !in old(WithStatus(InProgress))
      ensures WithStatus(Verified) == old(WithStatus(Verified))
      ensures WithStatus(Unvisited) == old(WithStatus(Unvisited)) - {key} && key in old(WithStatus(Unvisited))
    {
      KeysWithUpdate(cycles, key, InProgress, Unvisited);
      KeysWithUpdate(cycles, key, InProgress, Verified);
      cycles := cycles[key := InProgress];
    }

    /** The end of a visit: the expanded text replaces the original one and the key is verified. */
    method Store(key: string, text: string, ghost path: set<string>)
      requires Valid() && key in orig && orig[key].Some? && WithStatus(InProgress) == path + {key} && key !in path
      requires References(orig)[key] <= WithStatus(Verified) && Eval(cx, orig, path, key) == Ok(text)
      modifies this
      ensures Valid() && WithStatus(InProgress) == path
      ensures WithStatus(Verified) == old(WithStatus(Verified)) + {key}
      ensures WithStatus(Unvisited) <= old(WithStatus(Unvisited))
    {
      assert key in WithStatus(InProgress);
      StoreStep(cx, orig, env, cycles, key, path, text);
      KeysWithUpdate(cycles, key, Verified, InProgress);
      KeysWithUpdate(cycles, key, Verified, Unvisited);
      env := env[key := Some(text)];
      cycles := cycles[key := Verified];
    }

    /** EnvironmentMacroExpander: a variable of the preset is visited and then read. */
    method EnvironmentMacro(ns: string, name: string) returns (r: Expansion)
      requires Valid()
      modifies this
      ensures r == if IsPresetVariable(orig, ns, name) then Eval(cx, orig, old(WithStatus(InProgress)), name)
                   else ProcessEnvMacro(cx, ns, name)
      ensures r.Ok? ==> Valid() && Extends() && (IsPresetVariable(orig, ns, name) ==> name in WithStatus(Verified))
      ensures !IsPresetVariable(orig, ns, name) ==> Valid() && Extends()
      decreases WithStatus(Unvisited), 1
    {
      if !IsPresetVariable(env, ns, name) {
        return ProcessEnvMacro(cx, ns, name);
      }
      ghost var path := WithStatus(InProgress);
      var e := VisitEnv(name);
      match e {
        case MacroOk =>
          VerifiedAnswer(cx, orig, env, cycles, name);
          r := Ok(env[name].value);
        case MacroIgnore => r := Ignore;
        case MacroError => r := Error;
      }
    }

    /** One macro: the expanders in turn, the first that does not ignore it decides. */
    method ExpandMacro(ns: string, name: string) returns (r: Expansion)
      requires Valid()
      modifies this
      ensures r == EvalMacro(cx, orig, old(WithStatus(InProgress)), ns, name)
      ensures r.Ok? ==> Valid() && Extends() && (IsPresetVariable(orig, ns, name) ==> name in WithStatus(Verified))
      decreases WithStatus(Unvisited), 2
    {
      r := BaseMacro(cx, ns, name);
      if r != Ignore { return; }
      r := PresetMacro(cx, ns, name);
      if r != Ignore { return; }
      r := EnvironmentMacro(ns, name);
      if r != Ignore { return; }
      r := if ns == "vendor" then Ignore else Error;
    }

    /** The scanner loop, over the shared environment. */
    method ExpandMacros(text: string) returns (r: Expansion)
      requires Valid()
      modifies this
      ensures r == Expand(EvalMacros(cx, orig, old(WithStatus(InProgress))), text)
      ensures r.Ok? ==> Valid() && Extends() && ReferencesOf(orig, text) <= WithStatus(Verified)
      decreases WithStatus(Unvisited), 3
    {
      ghost var m := EvalMacros(cx, orig, WithStatus(InProgress));
      var state, result := Default, "";
      ScanStart(m, orig, WithStatus(Verified), text);
      for i := 0 to |text|
        invariant Valid() && Extends() && Scanned(m, orig, WithStatus(Verified), text, i, At(state, result))
      {
        var c := text[i];
        ghost var verified := WithStatus(Verified);
        if IsCall(state, c) {
          MacroAt(cx, orig, WithStatus(InProgress), state.ns, state.name);
          var e := ExpandMacro(state.ns, state.name);
          if !e.Ok? {
            ScanStops(m, orig, verified, text, i, At(state, result));
            return e;
          }
          ScanCalls(m, orig, verified, WithStatus(Verified), text, i, At(state, result), e);
          state, result := Default, result + e.text;
        } else {
          ScanCopies(m, orig, verified, text, i, At(state, result));
          state, result := NextMode(state, c), result + Copied(state, c);
        }
      }
      assert text[..|text|] == text;
      match state {
        case Default => r := Ok(result);
        case InNamespace(ns) => r := Ok(result + "$" + ns);
        case InName(_, _) => r := Error;
      }
    }

    /** The loop over the preset's environment: its result is that of the first variable, in the order of the keys, that
        does not expand. It succeeds exactly when no variable depends on itself and the equations have a solution, and
        then it leaves that solution. */
    method ExpandEnvironment(keys: seq<string>) returns (r: MacroResult)
      requires Valid() && env == orig && WithStatus(InProgress) == {} && Elements(keys) == orig.Keys
      modifies this
      ensures r == FirstFailure(cx, orig, keys, 0)
      ensures r == MacroOk <==> Solvable(cx, orig)
      ensures r == MacroOk ==> Valid() && WithStatus(InProgress) == {} && IsSolution(cx, orig, env)
    {
      ghost var result := FirstFailure(cx, orig, keys, 0);
      for n := 0 to |keys|
        invariant Valid() && WithStatus(InProgress) == {}
        invariant result == FirstFailure(cx, orig, keys, n)
        invariant ExpandedUpTo(keys, n)
      {
        FirstFailureStep(cx, orig, keys, n);
        r := ExpandVariable(keys, n);
        if r != MacroOk {
          return;
        }
      }
      AllVerified(keys);
      return MacroOk;
    }

    /** One turn of the loop: a variable that is not null is visited. */
    method ExpandVariable(keys: seq<string>, n: nat) returns (r: MacroResult)
      requires Valid() && WithStatus(InProgress) == {} && Elements(keys) == orig.Keys
      requires n < |keys| && ExpandedUpTo(keys, n)
      modifies this
      ensures r == ResultOfVariable(cx, orig, keys[n])
      ensures r == MacroOk ==> Valid() && WithStatus(InProgress) == {} && ExpandedUpTo(keys, n + 1)
    {
      assert keys[n] in Elements(keys);
      if env[keys[n]].None? {
        return MacroOk;
      }
      r := VisitEnv(keys[n]);
    }

    ghost predicate Expanded(key: string)
      reads this
    {
      key in orig && orig[key].Some? ==> key in WithStatus(Verified)
    }

    ghost predicate ExpandedUpTo(keys: seq<string>, n: nat)
      requires n <= |keys|
      reads this
    {
      forall i | 0 <= i < n :: Expanded(keys[i])
    }

    lemma AllVerified(keys: seq<string>)
      requires Valid() && Elements(keys) == orig.Keys && ExpandedUpTo(keys, |keys|)
      ensures Solvable(cx, orig) && IsSolution(cx, orig, env)
    {
      forall k | k in orig && orig[k].Some? ensures Holds(cx, orig, env, k) {
        assert k in Elements(keys);
        assert k in WithStatus(Verified);
      }
      SolvableIff(cx, orig);
      assert env == EvalValues(cx, orig);
    }

    /** Once the environment is expanded, any other field expands by the values the environment holds. */
    method ExpandField(text: string) returns (r: Expansion)
      requires Valid() && WithStatus(InProgress) == {} && IsSolution(cx, orig, env) && Acyclic(References(orig))
      modifies this
      ensures r == Expand(Meaning(cx, old(env)), text)
    {
      SolvableIff(cx, orig);
      FieldMacros(cx, orig, env, text);
      r := ExpandMacros(text);
    }
  }

  /** What the loop makes of one variable. */
  ghost function ResultOfVariable(cx: Context, orig: EnvMap, key: string): MacroResult {
    if key in orig && orig[key].Some? then ResultOf(Eval(cx, orig, {}, key)) else MacroOk
  }

  /** The result of the first variable from the n-th on that does not expand. */
  ghost function FirstFailure(cx: Context, orig: EnvMap, keys: seq<string>, n: nat): MacroResult
    requires n <= |keys|
    decreases |keys| - n
  {
    if n == |keys| then MacroOk
    else if ResultOfVariable(cx, orig, keys[n]) != MacroOk then ResultOfVariable(cx, orig, keys[n])
    else FirstFailure(cx, orig, keys, n + 1)
  }

  lemma FirstFailureStep(cx: Context, orig: EnvMap, keys: seq<string>, n: nat)
    requires n < |keys|
    ensures var r := ResultOfVariable(cx, orig, keys[n]);
            FirstFailure(cx, orig, keys, n) == (if r != MacroOk then r else FirstFailure(cx, orig, keys, n + 1))
            && (r != MacroOk ==> !Solvable(cx, orig))
  {
    if ResultOfVariable(cx, orig, keys[n]) != MacroOk {
      FailureIsUnsolvable(cx, orig, keys[n]);
    }
  }

  lemma FailureIsUnsolvable(cx: Context, orig: EnvMap, key: string)
    requires ResultOfVariable(cx, orig, key) != MacroOk
    ensures !Solvable(cx, orig)
  {
    SolvableIff(cx, orig);
  }

  /** With every variable expanded, a macro means what the values say. */
  lemma FieldMacros(cx: Context, orig: EnvMap, values: EnvMap, text: string)
    requires AllExpand(cx, orig) && values == EvalValues(cx, orig)
    ensures Expand(EvalMacros(cx, orig, {}), text) == Expand(Meaning(cx, values), text)
  {
    forall call | call in Calls(text)
      ensures EvalMacros(cx, orig, {})(call.0, call.1) == Meaning(cx, values)(call.0, call.1) {
      if IsPresetVariable(orig, call.0, call.1) {
        VariableMacro(cx, orig, {}, call.0, call.1);
      } else {
        OtherMacro(cx, orig, {}, call.0, call.1);
      }
    }
    AdvanceFrame(EvalMacros(cx, orig, {}), Meaning(cx, values), text);
  }

  /** The references of a prefix, one character further. */
  lemma ReferencesGrow(orig: EnvMap, text: string, i: nat)
    requires i < |text|
    ensures var mode := ModeAfter(text[..i]);
            ReferencesOf(orig, text[..i + 1]) ==
            ReferencesOf(orig, text[..i]) +
            if IsCall(mode, text[i]) && IsPresetVariable(orig, mode.ns, mode.name) then {mode.name} else {}
    ensures ReferencesOf(orig, text[..i + 1]) <= ReferencesOf(orig, text)
  {
    var mode := ModeAfter(text[..i]);
    assert text[..i + 1][..i] == text[..i];
    var asked := if IsCall(mode, text[i]) then {(mode.ns, mode.name)} else {};
    assert Calls(text[..i + 1]) == Calls(text[..i]) + asked;
    CallsOfPrefix(text, i + 1);
    forall j | j in ReferencesOf(orig, text[..i + 1])
      ensures j in ReferencesOf(orig, text[..i]) || (IsCall(mode, text[i]) && IsPresetVariable(orig, mode.ns, mode.name)
                                                     && j == mode.name)
    {
      var call :| call in Calls(text[..i + 1]) && IsPresetVariable(orig, call.0, call.1) && call.1 == j;
    }
    if IsCall(mode, text[i]) && IsPresetVariable(orig, mode.ns, mode.name) {
      assert (mode.ns, mode.name) in Calls(text[..i + 1]);
    }
  }

  lemma {:induction false} CallsOfPrefix(text: string, n: nat)
    requires n <= |text|
    ensures Calls(text[..n]) <= Calls(text)
    decreases |text| - n
  {
    if n == |text| {
      assert text[..n] == text;
    } else {
      assert text[..n + 1][..n] == text[..n];
      CallsOfPrefix(text, n + 1);
    }
  }
}

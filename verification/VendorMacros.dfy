/** What becomes of the promise that a preset with a vendor's macro is ignored and the other presets of its file can
    still be used (cmake-presets.7.rst), in the environment of a preset. */
module VendorMacros {
  import opened Options
  import opened Digraph
  import opened MacroScanner
  import opened Environment

  // ---- Exactly when a variable and an environment are ignored ----

  /** The only macros that are ignored are a vendor's: what a variable ignores is an error to those that refer to it. */
  lemma OnlyVendorsIgnored(cx: Context, orig: EnvMap, path: set<string>, ns: string, name: string)
    ensures EvalMacros(cx, orig, path)(ns, name) == Ignore <==> ns == "vendor"
  {
    if IsPresetVariable(orig, ns, name) {
      VariableMacro(cx, orig, path, ns, name);
    } else {
      OtherMacro(cx, orig, path, ns, name);
    }
  }

  /** The n-th character of a variable's text closes a vendor's macro, and every macro closed before succeeds. */
  ghost predicate VendorFirst(cx: Context, orig: EnvMap, path: set<string>, key: string, n: nat)
    requires key in orig && orig[key].Some?
  {
    var m, text := EvalMacros(cx, orig, path + {key}), orig[key].value;
    && n < |text| && IsCall(ModeAfter(text[..n]), text[n]) && ModeAfter(text[..n]).ns == "vendor"
    && forall call | call in Calls(text[..n]) :: m(call.0, call.1).Ok?
  }

  /** A variable is ignored exactly when a vendor's macro is the first macro in its own text that does not succeed. */
  lemma IgnoredForVendor(cx: Context, orig: EnvMap, path: set<string>, key: string)
    requires key in orig && orig[key].Some?
    ensures Eval(cx, orig, path, key) == Ignore <==>
            key !in path && exists n: nat :: VendorFirst(cx, orig, path, key, n)
    ensures Eval(cx, orig, path, key) == Ignore ==> exists call :: call in Calls(orig[key].value) && call.0 == "vendor"
  {
    var m, text := EvalMacros(cx, orig, path + {key}), orig[key].value;
    if Eval(cx, orig, path, key) == Ignore {
      var n := StoppedSomewhere(m, text);
      FirstFailureDecides(m, text, n);
      OnlyVendorsIgnored(cx, orig, path + {key}, ModeAfter(text[..n]).ns, ModeAfter(text[..n]).name);
      assert VendorFirst(cx, orig, path, key, n);
      VendorCalled(cx, orig, path + {key}, text);
    }
    if n: nat :| key !in path && VendorFirst(cx, orig, path, key, n) {
      OnlyVendorsIgnored(cx, orig, path + {key}, ModeAfter(text[..n]).ns, ModeAfter(text[..n]).name);
      FirstFailureDecides(m, text, n);
    }
  }

  lemma VendorCalled(cx: Context, orig: EnvMap, path: set<string>, text: string)
    requires Expand(EvalMacros(cx, orig, path), text) == Ignore
    ensures exists call :: call in Calls(text) && call.0 == "vendor"
  {
    var m := EvalMacros(cx, orig, path);
    StoppedByCall(m, text);
    var call :| call in Calls(text) && m(call.0, call.1) == Ignore;
    OnlyVendorsIgnored(cx, orig, path, call.0, call.1);
  }

  /** The i-th key is the first that does not expand, and it is stopped by a vendor's macro in its own text. */
  ghost predicate IgnoredAt(cx: Context, orig: EnvMap, keys: seq<string>, i: nat) {
    && i < |keys| && keys[i] in orig && orig[keys[i]].Some?
    && (exists n: nat :: VendorFirst(cx, orig, {}, keys[i], n))
    && forall j | 0 <= j < i :: ResultOfVariable(cx, orig, keys[j]) == MacroOk
  }

  lemma {:induction false} FailsFirstAt(cx: Context, orig: EnvMap, keys: seq<string>, n: nat, i: nat)
    requires n <= i < |keys| && ResultOfVariable(cx, orig, keys[i]) != MacroOk
    requires forall j | n <= j < i :: ResultOfVariable(cx, orig, keys[j]) == MacroOk
    ensures FirstFailure(cx, orig, keys, n) == ResultOfVariable(cx, orig, keys[i])
    decreases i - n
  {
    if n < i {
      FailsFirstAt(cx, orig, keys, n + 1, i);
    }
  }

  lemma {:induction false} FailsSomewhere(cx: Context, orig: EnvMap, keys: seq<string>, n: nat) returns (i: nat)
    requires n <= |keys| && FirstFailure(cx, orig, keys, n) != MacroOk
    ensures n <= i < |keys| && ResultOfVariable(cx, orig, keys[i]) != MacroOk
    ensures forall j | n <= j < i :: ResultOfVariable(cx, orig, keys[j]) == MacroOk
    decreases |keys| - n
  {
    if ResultOfVariable(cx, orig, keys[n]) != MacroOk {
      i := n;
    } else {
      i := FailsSomewhere(cx, orig, keys, n + 1);
    }
  }

  /** What ExpandEnvironment returns: the environment is ignored exactly when the first variable, in the order of the
      keys, that does not expand is stopped by a vendor's macro in its own text. */
  lemma EnvironmentIgnoredIff(cx: Context, orig: EnvMap, keys: seq<string>)
    ensures FirstFailure(cx, orig, keys, 0) == MacroIgnore <==> exists i: nat :: IgnoredAt(cx, orig, keys, i)
  {
    if FirstFailure(cx, orig, keys, 0) == MacroIgnore {
      var i := FailsSomewhere(cx, orig, keys, 0);
      FailsFirstAt(cx, orig, keys, 0, i);
      IgnoredForVendor(cx, orig, {}, keys[i]);
      assert IgnoredAt(cx, orig, keys, i);
    }
    if i: nat :| IgnoredAt(cx, orig, keys, i) {
      IgnoredForVendor(cx, orig, {}, keys[i]);
      FailsFirstAt(cx, orig, keys, 0, i);
    }
  }

  // ---- How the promise is broken ----

  /** One variable is a vendor's macro, and another refers to it. */
  function Referring(user: string, other: string, macro: string): EnvMap {
    map[user := Some(MacroText("env", other)), other := Some(MacroText("vendor", macro))]
  }

  /** The promise depends on the names of the variables: with the keys in one order the preset is ignored, with the keys
      in the other the whole file is in error. */
  lemma PromiseBroken(cx: Context, user: string, other: string, macro: string)
    requires user != other && other != "" && '}' !in other && '}' !in macro
    ensures FirstFailure(cx, Referring(user, other, macro), [user, other], 0) == MacroError
    ensures FirstFailure(cx, Referring(user, other, macro), [other, user], 0) == MacroIgnore
  {
    var orig := Referring(user, other, macro);
    VendorVariable(cx, orig, {}, other, macro);
    VendorVariable(cx, orig, {} + {user}, other, macro);
    WrittenMacro(EvalMacros(cx, orig, {} + {user}), "env", other);
    VariableMacro(cx, orig, {} + {user}, "env", other);
  }

  lemma VendorVariable(cx: Context, orig: EnvMap, path: set<string>, key: string, macro: string)
    requires key in orig && orig[key] == Some(MacroText("vendor", macro)) && key !in path && '}' !in macro
    ensures Eval(cx, orig, path, key) == Ignore
  {
    WrittenMacro(EvalMacros(cx, orig, path + {key}), "vendor", macro);
    OnlyVendorsIgnored(cx, orig, path + {key}, "vendor", macro);
  }

  // ---- Exactly when the promise is kept, read off the texts ----

  predicate HasVendor(text: string) {
    exists call | call in Calls(text) :: call.0 == "vendor"
  }

  /** The variable's text, or that of a variable it refers to directly or not, has a vendor's macro. */
  ghost predicate Spoiled(orig: EnvMap, key: string) {
    exists k :: Reaches(References(orig), key, k) && Vendored(orig, k)
  }

  predicate Vendored(orig: EnvMap, k: string) {
    k in orig && orig[k].Some? && HasVendor(orig[k].value)
  }

  /** Nothing but vendors' macros is wrong with the environment: no variable depends on itself, no macro is left open,
      and every macro succeeds that is neither a vendor's nor a variable of the preset. */
  ghost predicate FineButForVendors(cx: Context, orig: EnvMap) {
    && Acyclic(References(orig))
    && forall k {:trigger orig[k]} | k in orig && orig[k].Some? :: FineText(cx, orig, orig[k].value)
  }

  predicate FineText(cx: Context, orig: EnvMap, text: string) {
    && !ModeAfter(text).InName?
    && forall call | call in Calls(text) && call.0 != "vendor" && !IsPresetVariable(orig, call.0, call.1) ::
         FirstAnswer(cx, call.0, call.1, ProcessEnvMacro(cx, call.0, call.1)).Ok?
  }

  /** The macro is not a vendor's and does not lead to one. */
  ghost predicate Clean(orig: EnvMap, ns: string, name: string) {
    ns != "vendor" && (IsPresetVariable(orig, ns, name) ==> !Spoiled(orig, name))
  }

  ghost predicate AllClean(orig: EnvMap, text: string) {
    forall call | call in Calls(text) :: Clean(orig, call.0, call.1)
  }

  lemma SpoiledIff(orig: EnvMap, key: string)
    requires key in orig && orig[key].Some?
    ensures Spoiled(orig, key) <==> !AllClean(orig, orig[key].value)
  {
    var g, text := References(orig), orig[key].value;
    if k :| Reaches(g, key, k) && Vendored(orig, k) {
      if k != key {
        ReachesFirstStep(g, key, k);
        var s :| s in g[key] && s in g && Reaches(g, s, k);
        var call :| call in Calls(text) && IsPresetVariable(orig, call.0, call.1) && call.1 == s;
        assert !Clean(orig, call.0, call.1);
      }
    }
    forall call | call in Calls(text) && !Clean(orig, call.0, call.1) ensures Spoiled(orig, key) {
      ReachesSelf(g, key);
      if call.0 == "vendor" {
        assert Vendored(orig, key);
      } else {
        var k :| Reaches(g, call.1, k) && Vendored(orig, k);
        ReachesStep(g, key, call.1);
        ReachesTransitive(g, key, call.1, k);
      }
    }
  }

  /** A macro succeeds exactly when it is clean, if the variables it may refer to expand exactly when they are not
      spoiled. */
  lemma CleanSucceeds(cx: Context, orig: EnvMap, path: set<string>, text: string, ns: string, name: string)
    requires FineText(cx, orig, text) && (ns, name) in Calls(text)
    requires IsPresetVariable(orig, ns, name) ==> (Eval(cx, orig, path, name).Ok? <==> !Spoiled(orig, name))
    ensures EvalMacros(cx, orig, path)(ns, name).Ok? <==> Clean(orig, ns, name)
  {
    if IsPresetVariable(orig, ns, name) {
      VariableMacro(cx, orig, path, ns, name);
    } else {
      OtherMacro(cx, orig, path, ns, name);
      OnlyVendorsIgnored(cx, orig, path, ns, name);
    }
  }

  /** A variable expands exactly when it is not spoiled. */
  lemma {:induction false} ExpandsIff(cx: Context, orig: EnvMap, order: seq<string>, i: nat, path: set<string>)
    requires FineButForVendors(cx, orig) && Ordered(References(orig), order) && i < |order|
    requires orig[order[i]].Some? && path !! Elements(order[..i + 1])
    ensures Eval(cx, orig, path, order[i]).Ok? <==> !Spoiled(orig, order[i])
    decreases i, 1
  {
    var key := order[i];
    var text, m := orig[key].value, EvalMacros(cx, orig, path + {key});
    assert key in Elements(order[..i + 1]);
    ExpandOkIff(m, text);
    SpoiledIff(orig, key);
    forall call | call in Calls(text) ensures m(call.0, call.1).Ok? <==> Clean(orig, call.0, call.1) {
      MacroSucceedsIff(cx, orig, order, i, path, call.0, call.1);
    }
  }

  lemma {:induction false} MacroSucceedsIff(cx: Context, orig: EnvMap, order: seq<string>, i: nat, path: set<string>,
                                            ns: string, name: string)
    requires FineButForVendors(cx, orig) && Ordered(References(orig), order) && i < |order|
    requires orig[order[i]].Some? && path !! Elements(order[..i + 1]) && (ns, name) in Calls(orig[order[i]].value)
    ensures EvalMacros(cx, orig, path + {order[i]})(ns, name).Ok? <==> Clean(orig, ns, name)
    decreases i, 0
  {
    var key := order[i];
    if IsPresetVariable(orig, ns, name) {
      assert name in References(orig)[key] && name in Elements(order[..i]);
      var j :| 0 <= j < i && order[j] == name;
      EarlierDisjoint(order, i, j, path);
      ExpandsIff(cx, orig, order, j, path + {key});
    }
    CleanSucceeds(cx, orig, path + {key}, orig[key].value, ns, name);
  }

  lemma ExpandsAlone(cx: Context, orig: EnvMap, key: string)
    requires FineButForVendors(cx, orig) && key in orig && orig[key].Some?
    ensures ResultOfVariable(cx, orig, key) == MacroOk <==> !Spoiled(orig, key)
    ensures forall call | call in Calls(orig[key].value) ::
              EvalMacros(cx, orig, {} + {key})(call.0, call.1).Ok? <==> Clean(orig, call.0, call.1)
  {
    var g := References(orig);
    AcyclicIffOrdered(g);
    var order :| Ordered(g, order) && Elements(order) == g.Keys;
    assert key in Elements(order);
    var i :| 0 <= i < |order| && order[i] == key;
    ExpandsIff(cx, orig, order, i, {});
    forall call | call in Calls(orig[key].value)
      ensures EvalMacros(cx, orig, {} + {key})(call.0, call.1).Ok? <==> Clean(orig, call.0, call.1)
    {
      MacroSucceedsIff(cx, orig, order, i, {}, call.0, call.1);
    }
  }

  /** The n-th character closes a vendor's macro, and no macro closed before is a vendor's or leads to one. */
  ghost predicate OwnVendorFirst(orig: EnvMap, text: string, n: nat) {
    && n < |text| && IsCall(ModeAfter(text[..n]), text[n]) && ModeAfter(text[..n]).ns == "vendor"
    && AllClean(orig, text[..n])
  }

  /** The first spoiled variable among the keys has its own vendor's macro before any reference to a spoiled one. */
  ghost predicate FirstSpoiledIsOwn(orig: EnvMap, keys: seq<string>, i: nat) {
    && i < |keys| && keys[i] in orig && orig[keys[i]].Some?
    && (exists n: nat :: OwnVendorFirst(orig, orig[keys[i]].value, n))
    && forall j | 0 <= j < i && keys[j] in orig && orig[keys[j]].Some? :: !Spoiled(orig, keys[j])
  }

  lemma IgnoredAtIff(cx: Context, orig: EnvMap, keys: seq<string>, i: nat)
    requires FineButForVendors(cx, orig)
    ensures IgnoredAt(cx, orig, keys, i) <==> FirstSpoiledIsOwn(orig, keys, i)
  {
    if i < |keys| && keys[i] in orig && orig[keys[i]].Some? {
      var text := orig[keys[i]].value;
      ExpandsAlone(cx, orig, keys[i]);
      forall n: nat ensures VendorFirst(cx, orig, {}, keys[i], n) <==> OwnVendorFirst(orig, text, n) {
        if n < |text| {
          CallsOfPrefix(text, n);
        }
      }
      forall j | 0 <= j < i && keys[j] in orig && orig[keys[j]].Some?
        ensures ResultOfVariable(cx, orig, keys[j]) == MacroOk <==> !Spoiled(orig, keys[j])
      {
        ExpandsAlone(cx, orig, keys[j]);
      }
    }
  }

  /** When nothing but vendors' macros is wrong with the environment, its texts say what becomes of the preset. It can
      be used exactly when there is no vendor's macro. If there is one, the promise that the preset is ignored is kept
      exactly when the first spoiled variable has its own vendor's macro before any reference to a spoiled one. */
  lemma PromiseKeptIff(cx: Context, orig: EnvMap, keys: seq<string>)
    requires FineButForVendors(cx, orig) && Elements(keys) == orig.Keys
    ensures FirstFailure(cx, orig, keys, 0) == MacroOk <==> forall k | k in orig :: !Vendored(orig, k)
    ensures FirstFailure(cx, orig, keys, 0) == MacroIgnore <==> exists i: nat :: FirstSpoiledIsOwn(orig, keys, i)
  {
    EnvironmentIgnoredIff(cx, orig, keys);
    forall i: nat ensures IgnoredAt(cx, orig, keys, i) <==> FirstSpoiledIsOwn(orig, keys, i) {
      IgnoredAtIff(cx, orig, keys, i);
    }
    UsableIff(cx, orig, keys);
  }

  lemma UsableIff(cx: Context, orig: EnvMap, keys: seq<string>)
    requires FineButForVendors(cx, orig) && Elements(keys) == orig.Keys
    ensures FirstFailure(cx, orig, keys, 0) == MacroOk <==> forall k | k in orig :: !Vendored(orig, k)
  {
    if FirstFailure(cx, orig, keys, 0) != MacroOk {
      var i := FailsSomewhere(cx, orig, keys, 0);
      ExpandsAlone(cx, orig, keys[i]);
    } else if k :| k in orig && Vendored(orig, k) {
      assert k in Elements(keys);
      var i :| 0 <= i < |keys| && keys[i] == k;
      ReachesSelf(References(orig), k);
      ExpandsAlone(cx, orig, k);
      NoFailureMeansOk(cx, orig, keys, 0, i);
    }
  }

  lemma {:induction false} NoFailureMeansOk(cx: Context, orig: EnvMap, keys: seq<string>, n: nat, i: nat)
    requires n <= i < |keys| && FirstFailure(cx, orig, keys, n) == MacroOk
    ensures ResultOfVariable(cx, orig, keys[i]) == MacroOk
    decreases i - n
  {
    if n < i {
      NoFailureMeansOk(cx, orig, keys, n + 1, i);
    }
  }
}

/**
 * The application-code allow-list: a set of codes read once from the
 * comma-separated `WOOP_VALID_APP_CODES` environment variable, a check that
 * a configuration's code is non-empty and listed, and registration of
 * further codes into the same set.
 */
module AppCodes {
  import opened Wrappers
  import opened JsStrings
  import opened WidgetTypes

  /**
   * The list built from the variable's value (`None` when it is unset): no
   * codes when the value is unset or empty, otherwise one trimmed code per
   * comma-separated piece, empty pieces included.
   */
  function EnvCodes(env: Option<string>): (codes: seq<string>)
    ensures env.None? || env.value == "" ==> codes == []
    ensures env.Some? && env.value != "" ==> |codes| == |Split(env.value, ',')| >= 1
    ensures env.Some? && env.value != "" ==>
      forall i :: 0 <= i < |codes| ==> codes[i] == Trim(Split(env.value, ',')[i])
  {
    if env.None? || env.value == "" then [] else TrimEach(Split(env.value, ','))
  }

  /** `pieces.map((code) => code.trim())`. */
  function TrimEach(pieces: seq<string>): (codes: seq<string>)
    ensures |codes| == |pieces|
    ensures forall i :: 0 <= i < |pieces| ==> codes[i] == Trim(pieces[i])
  {
    if pieces == [] then [] else [Trim(pieces[0])] + TrimEach(pieces[1..])
  }

  /** A code is in the trimmed list exactly when some piece trims to it. */
  lemma TrimEachMembers(pieces: seq<string>)
    ensures forall c :: c in TrimEach(pieces) <==> exists i :: 0 <= i < |pieces| && Trim(pieces[i]) == c
  {
    var codes := TrimEach(pieces);
    forall c ensures c in codes <==> exists i :: 0 <= i < |pieces| && Trim(pieces[i]) == c {
      if c in codes {
        var i :| 0 <= i < |codes| && codes[i] == c;
        assert Trim(pieces[i]) == c;
      }
      if exists i :: 0 <= i < |pieces| && Trim(pieces[i]) == c {
        var i :| 0 <= i < |pieces| && Trim(pieces[i]) == c;
        assert codes[i] == c;
      }
    }
  }

  /** Trimming every piece of a list of already trimmed pieces changes nothing. */
  lemma TrimEachTrimmed(pieces: seq<string>)
    requires forall i :: 0 <= i < |pieces| ==> IsTrimmed(pieces[i])
    ensures TrimEach(pieces) == pieces
  {
    forall i | 0 <= i < |pieces| ensures TrimEach(pieces)[i] == pieces[i] {
      TrimTrimmed(pieces[i]);
    }
  }

  /** Some piece of the list trims to `c`. */
  predicate TrimsTo(pieces: seq<string>, c: string) {
    exists i :: 0 <= i < |pieces| && Trim(pieces[i]) == c
  }

  /** `new Set(codes)` over the trimmed pieces: a code is in it exactly when some piece trims to it. */
  function TrimmedSet(pieces: seq<string>): (codes: set<string>)
    ensures forall c :: c in codes <==> TrimsTo(pieces, c)
  {
    TrimEachMembers(pieces);
    set c | c in TrimEach(pieces)
  }

  /** Pieces that are already trimmed make up the set unchanged. */
  lemma TrimmedSetOfTrimmed(pieces: seq<string>)
    requires forall i :: 0 <= i < |pieces| ==> IsTrimmed(pieces[i])
    ensures TrimmedSet(pieces) == set c | c in pieces
  {
    TrimEachTrimmed(pieces);
  }

  /** The initial allow-list: exactly the trimmed pieces of the variable's value. */
  function ValidCodes(env: Option<string>): (codes: set<string>)
    ensures env.None? || env.value == "" ==> codes == {}
    ensures env.Some? && env.value != "" ==> forall c :: c in codes <==> TrimsTo(Split(env.value, ','), c)
  {
    if env.None? || env.value == "" then {} else TrimmedSet(Split(env.value, ','))
  }

  /** The initial allow-list is `new Set(ENV_CODES)`: the set of the list's codes. */
  lemma ValidCodesAreEnvCodes(env: Option<string>)
    ensures ValidCodes(env) == set c | c in EnvCodes(env)
  {
  }

  /** No code read from the environment has whitespace at either end or holds a comma. */
  lemma EnvCodesAreTrimmed(env: Option<string>)
    ensures forall c :: c in ValidCodes(env) ==> IsTrimmed(c) && ',' !in c
  {
  }

  /**
   * Writing a non-empty list of trimmed, comma-free codes into the variable
   * joined by commas yields exactly that list's codes.
   */
  lemma EnvListRoundTrip(list: seq<string>)
    requires |list| >= 1 && Join(list, ',') != ""
    requires forall i :: 0 <= i < |list| ==> IsTrimmed(list[i]) && ',' !in list[i]
    ensures ValidCodes(Some(Join(list, ','))) == set c | c in list
  {
    SplitJoin(list, ',');
    assert ValidCodes(Some(Join(list, ','))) == TrimmedSet(list);
    TrimmedSetOfTrimmed(list);
  }

  /** Three codes joined by commas, the middle one empty, read as `first,,last`. */
  lemma JoinAroundEmpty(first: string, last: string)
    ensures Join([first, "", last], ',') == first + ",," + last
  {
    var list := [first, "", last];
    assert list[1..] == ["", last] && list[1..][1..] == [last];
    assert Join(["", last], ',') == [] + [','] + last == "," + last;
    assert first + [','] + ("," + last) == first + ",," + last;
  }

  lemma ThreeElementSet(a: string, b: string, c: string)
    ensures (set x | x in [a, b, c]) == {a, b, c}
  {
    assert forall x :: x in [a, b, c] <==> x == a || x == b || x == c;
  }

  /**
   * An empty piece, as in the middle of `"a,,b"`, puts the empty code in the
   * set: `first,,last` gives exactly the codes on either side and `""`.
   */
  lemma EmptyPieceListsEmptyCode(first: string, last: string)
    requires IsTrimmed(first) && ',' !in first
    requires IsTrimmed(last) && ',' !in last
    ensures ValidCodes(Some(Join([first, "", last], ','))) == {first, "", last}
  {
    var list := [first, "", last];
    assert |Join(list, ',')| >= 2 by { JoinAroundEmpty(first, last); }
    EnvListRoundTrip(list);
    ThreeElementSet(first, "", last);
  }

  /** The module-level set of valid codes. */
  class AppCodeRegistry {
    var codes: set<string>

    /** The set as the module initialises it from the environment variable. */
    constructor FromEnvironment(env: Option<string>)
      ensures codes == ValidCodes(env)
    {
      codes := ValidCodes(env);
    }

    /**
     * `validateAppCode`: true exactly when the configuration's code is
     * non-empty and, compared without trimming, is in the set; an empty code
     * is refused even when the set holds it. The set is left as it was.
     */
    method Validate(config: WidgetConfig) returns (valid: bool)
      ensures valid <==> config.appCode != "" && config.appCode in codes
    {
      if config.appCode == "" {
        return false;
      }
      if config.appCode !in codes {
        return false;
      }
      return true;
    }

    /** `registerAppCode`: adds the code, any code including `""`, and reports success. */
    method Register(appCode: string) returns (ok: bool)
      modifies this
      ensures ok
      ensures codes == old(codes) + {appCode}
    {
      codes := codes + {appCode};
      ok := true;
    }
  }

  /** Registering a code a second time leaves the set as one registration did. */
  method RegisterTwice(registry: AppCodeRegistry, appCode: string)
    modifies registry
    ensures registry.codes == old(registry.codes) + {appCode}
  {
    var _ := registry.Register(appCode);
    var _ := registry.Register(appCode);
  }

  /** A non-empty code validates once it has been registered, and no other code changes status. */
  method RegisterThenValidate(registry: AppCodeRegistry, config: WidgetConfig) returns (valid: bool)
    requires config.appCode != ""
    modifies registry
    ensures valid
    ensures forall c :: c != config.appCode ==> (c in registry.codes <==> c in old(registry.codes))
  {
    var _ := registry.Register(config.appCode);
    valid := registry.Validate(config);
  }
}

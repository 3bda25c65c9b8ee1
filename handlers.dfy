/**
 * How the screen's handlers change its component state, as functions of the
 * state before the call: a one-key `setState`, the submission of a raw JSON
 * patch for the streaming configuration (demo/App.js:120-129) and the write
 * done by an `onChange` that `useStateOfPath` hands out (demo/App.js:140-143).
 */
module Handlers {
  import opened Wrappers
  import opened JsValue
  import opened Merge
  import opened Config
  import opened Props

  /** `this.setState({[k]: v})`: the shallow merge of a one-key object into the state. */
  function WithField(state: Value, k: string, v: Value): (r: Value)
    requires state.Obj?
    ensures r.Obj?
  {
    Obj(Assign(state.members, k, v))
  }

  /**
   * The state after `handleStreamingConfigInputSubmit`, given what parsing the
   * input produced: the error is cleared, then either the parse error's message
   * is recorded or the parsed patch is merged into `streamingConfig`.
   */
  function Submitted(state: Value, parsed: Result<Value, string>): (r: Value)
    requires state.Obj?
    ensures r.Obj?
  {
    var cleared := WithField(state, ErrorKey, Null);
    match parsed
    case Failure(message) => WithField(cleared, ErrorKey, Str(message))
    case Success(toMerge) => WithField(cleared, ConfigKey, MergeRecursive(Prop(state, ConfigKey), toMerge))
  }

  /** The state after an `onChange(v)` bound to the segments `keys`: the merge of the one-path patch. */
  function AfterChange(state: Value, keys: seq<string>, v: Value): (r: Value)
    ensures r.Obj?
  {
    MergeRecursive(state, Nest(keys, v))
  }

  // ---------------------------------------------------------------------------
  // One-key updates

  /** A one-key `setState` sets that key and leaves every other key, present or absent, as it was. */
  lemma WithFieldLookup(state: Value, k: string, v: Value, k': string)
    requires state.Obj?
    ensures Lookup(WithField(state, k, v).members, k') == if k' == k then Some(v) else Lookup(state.members, k')
  {
    LookupAssign(state.members, k, v, k');
  }

  // ---------------------------------------------------------------------------
  // Submitting a raw patch

  /**
   * After a submission the error is the parse message, or `null` when parsing
   * succeeded; the configuration is the old one after a failure and the
   * recursive merge of the old one with the patch after a success; no other
   * key of the state changes.
   */
  lemma {:induction false} SubmitOutcome(state: Value, parsed: Result<Value, string>, k: string)
    requires state.Obj?
    ensures Prop(Submitted(state, parsed), ErrorKey) == if parsed.Failure? then Str(parsed.error) else Null
    ensures Prop(Submitted(state, parsed), ConfigKey) ==
      if parsed.Success? then MergeRecursive(Prop(state, ConfigKey), parsed.value) else Prop(state, ConfigKey)
    ensures k != ErrorKey && k != ConfigKey ==> Lookup(Submitted(state, parsed).members, k) == Lookup(state.members, k)
  {
    var cleared := WithField(state, ErrorKey, Null);
    WithFieldLookup(state, ErrorKey, Null, ErrorKey);
    WithFieldLookup(state, ErrorKey, Null, ConfigKey);
    WithFieldLookup(state, ErrorKey, Null, k);
    match parsed
    case Failure(message) =>
      WithFieldLookup(cleared, ErrorKey, Str(message), ErrorKey);
      WithFieldLookup(cleared, ErrorKey, Str(message), ConfigKey);
      WithFieldLookup(cleared, ErrorKey, Str(message), k);
    case Success(toMerge) =>
      var config := MergeRecursive(Prop(state, ConfigKey), toMerge);
      WithFieldLookup(cleared, ConfigKey, config, ErrorKey);
      WithFieldLookup(cleared, ConfigKey, config, ConfigKey);
      WithFieldLookup(cleared, ConfigKey, config, k);
  }

  /**
   * Text that parses to something other than a plain object (a number, a
   * string, `null`, an array) merges nothing: the configuration is unchanged.
   */
  lemma SubmitNonObject(state: Value, parsed: Result<Value, string>)
    requires state.Obj? && Prop(state, ConfigKey).Obj?
    requires parsed.Success? && !parsed.value.Obj?
    ensures Prop(Submitted(state, parsed), ConfigKey) == Prop(state, ConfigKey)
  {
    SubmitOutcome(state, parsed, ConfigKey);
    AbsorbIntoEmpty(Prop(state, ConfigKey));
  }

  /** Submitting the same well-formed patch again leaves the configuration as the first submission left it. */
  lemma SubmitTwice(state: Value, toMerge: Value)
    requires state.Obj? && WellFormed(toMerge)
    ensures Prop(Submitted(Submitted(state, Success(toMerge)), Success(toMerge)), ConfigKey) ==
      Prop(Submitted(state, Success(toMerge)), ConfigKey)
  {
    var once := Submitted(state, Success(toMerge));
    SubmitOutcome(state, Success(toMerge), ConfigKey);
    SubmitOutcome(once, Success(toMerge), ConfigKey);
    MergeRecursiveTwice(Prop(state, ConfigKey), toMerge);
  }

  // ---------------------------------------------------------------------------
  // Writing through a bound path

  /**
   * Read after write: after `onChange(v)` the bound path holds `v`, or, when
   * both the old value and `v` are objects, their recursive merge.
   */
  lemma ChangeReadBack(state: Value, keys: seq<string>, v: Value)
    requires state.Obj? && |keys| >= 1
    ensures Read(AfterChange(state, keys, v), keys) == Some(DeepMerge(PathValue(state, keys), v))
    ensures !v.Obj? ==> Read(AfterChange(state, keys, v), keys) == Some(v)
  {
    MergeRecursiveOfObjects(state, Nest(keys, v));
    MergeReadBack(state, keys, v);
  }

  /**
   * Every path that leaves the bound path at some segment below an object reads
   * as before: siblings at every depth (another setting of the same profile
   * entry, another top-level key) are unchanged.
   */
  lemma ChangeKeepsSiblings(state: Value, keys: seq<string>, v: Value, other: seq<string>, i: nat)
    requires i < |keys| && i < |other|
    requires other[..i] == keys[..i] && other[i] != keys[i]
    requires Read(state, keys[..i]).Some? && Read(state, keys[..i]).value.Obj?
    ensures Read(AfterChange(state, keys, v), other) == Read(state, other)
  {
    ReadObjPrefix(state, keys[..i], 0);
    assert keys[..i][..0] == [];
    MergeRecursiveOfObjects(state, Nest(keys, v));
    MergeKeepsSiblings(state, keys, v, other, i);
  }

  /** Writing the same value through the same binding twice gives the state that writing it once gives. */
  lemma ChangeTwice(state: Value, keys: seq<string>, v: Value)
    requires WellFormed(v)
    ensures AfterChange(AfterChange(state, keys, v), keys, v) == AfterChange(state, keys, v)
  {
    NestWellFormed(keys, v);
    MergeRecursiveTwice(state, Nest(keys, v));
  }

  /**
   * Of two writes through the same binding, the later one is what the path
   * holds when it is not an object; a later object is merged into the earlier value.
   */
  lemma ChangeLastWins(state: Value, keys: seq<string>, first: Value, last: Value)
    requires state.Obj? && |keys| >= 1 && !last.Obj?
    ensures Read(AfterChange(AfterChange(state, keys, first), keys, last), keys) == Some(last)
  {
    ChangeReadBack(AfterChange(state, keys, first), keys, last);
  }

  /**
   * Every input of the form can be written: since each bound path starts at a
   * leaf, what is written through it, object or not, is what the path then reads.
   */
  lemma BoundInputWrite(isAndroid: bool, i: nat, v: Value)
    requires i < |BoundPaths()|
    ensures Read(AfterChange(InitialState(isAndroid), BoundPaths()[i], v), BoundPaths()[i]) == Some(v)
  {
    BoundPathsResolve(isAndroid, i);
    ChangeReadBack(InitialState(isAndroid), BoundPaths()[i], v);
  }

  // ---------------------------------------------------------------------------
  // The state stays a real JavaScript object

  /** A one-key `setState` with a well-formed value keeps the state well formed. */
  lemma WithFieldWellFormed(state: Value, k: string, v: Value)
    requires state.Obj? && WellFormed(state) && WellFormed(v)
    ensures WellFormed(WithField(state, k, v))
  {
    AssignWellFormed(state.members, k, v);
  }

  /** A submission keeps the state well formed when what the parser returns is well formed. */
  lemma SubmittedWellFormed(state: Value, parsed: Result<Value, string>)
    requires state.Obj? && WellFormed(state)
    requires parsed.Success? ==> WellFormed(parsed.value)
    ensures WellFormed(Submitted(state, parsed))
  {
    var cleared := WithField(state, ErrorKey, Null);
    WithFieldWellFormed(state, ErrorKey, Null);
    match parsed {
      case Failure(message) =>
        WithFieldWellFormed(cleared, ErrorKey, Str(message));
      case Success(toMerge) =>
        PropWellFormed(state, ConfigKey);
        MergeRecursiveWellFormed(Prop(state, ConfigKey), toMerge);
        WithFieldWellFormed(cleared, ConfigKey, MergeRecursive(Prop(state, ConfigKey), toMerge));
    }
  }

  /** A write through a binding keeps the state well formed when the value written is. */
  lemma AfterChangeWellFormed(state: Value, keys: seq<string>, v: Value)
    requires WellFormed(state) && WellFormed(v)
    ensures WellFormed(AfterChange(state, keys, v))
  {
    NestWellFormed(keys, v);
    MergeRecursiveWellFormed(state, Nest(keys, v));
  }

  /** In a well-formed state the props that `render` derives from the configuration repeat no key. */
  lemma StatePropsDistinct(state: Value)
    requires WellFormed(state) && StreamingProps(Prop(state, ConfigKey)).Some?
    ensures DistinctKeys(StreamingProps(Prop(state, ConfigKey)).value)
  {
    PropWellFormed(state, ConfigKey);
    PropsDistinct(Prop(state, ConfigKey));
  }
}

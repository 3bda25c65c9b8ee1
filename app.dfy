/**
 * The screen component as an object: its component state, the handlers that
 * update it, and the dot-path bindings that `useStateOfPath` and
 * `bindStateOfPath` hand to the form's inputs (demo/App.js:115-151).
 */
module DemoApp {
  import opened Wrappers
  import opened JsValue
  import opened Merge
  import opened KeyPath
  import opened Config
  import opened Handlers

  /**
   * `keys.slice(0, -1).reduce((obj, key) => obj[key] = {}, toMerge)` with a
   * fresh `toMerge = {}`: the patch becomes a chain of one-key objects along
   * `parent`, and the node returned last, `lastObj`, is reached from the patch
   * by following `lastPath`, where it is still an empty object.
   */
  method BuildPatch(parent: seq<string>) returns (toMerge: Value, lastPath: seq<string>)
    ensures toMerge == Nest(parent, Obj([]))
    ensures lastPath == parent
    ensures Read(toMerge, lastPath) == Some(Obj([]))
  {
    toMerge := Obj([]);
    lastPath := [];
    var i := 0;
    while i < |parent|
      invariant 0 <= i <= |parent|
      invariant lastPath == parent[..i]
      invariant toMerge == Nest(lastPath, Obj([]))
    {
      var key := parent[i];
      // obj[key] = {}, and the fresh {} becomes the next obj
      SetInNest(lastPath, [], key, Obj([]));
      NestSnoc(lastPath, key, Obj([]));
      toMerge := SetIn(toMerge, lastPath, key, Obj([]));
      lastPath := lastPath + [key];
      assert parent[..i + 1] == parent[..i] + [key];
      i := i + 1;
    }
    assert parent[..|parent|] == parent;
    NestChain(parent, Obj([]), |parent|);
  }

  /** What `bindStateOfPath` returns: the current value and its setter. */
  datatype Binding = Binding(value: Value, onChange: Setter)

  class App {
    /** `this.state`. */
    var state: Value

    /** The state is a plain object in which no name repeats at any depth. */
    ghost predicate Valid()
      reads this
    {
      state.Obj? && WellFormed(state)
    }

    constructor(isAndroid: bool)
      ensures Valid() && state == InitialState(isAndroid)
    {
      state := InitialState(isAndroid);
      InitialStateWellFormed(isAndroid);
    }

    /** `this.setState({[k]: v})`. */
    method SetState(k: string, v: Value)
      requires Valid() && WellFormed(v)
      modifies this
      ensures Valid() && state == WithField(old(state), k, v)
    {
      WithFieldWellFormed(state, k, v);
      state := WithField(state, k, v);
    }

    /** The streaming component's state callback. */
    method HandleStateChange(s: Value)
      requires Valid() && WellFormed(s)
      modifies this
      ensures Valid() && state == WithField(old(state), StateKey, s)
    {
      SetState(StateKey, s);
    }

    /** The streaming component's stream-information callback. */
    method HandleStreamInfoChange(streamInfo: Value)
      requires Valid() && WellFormed(streamInfo)
      modifies this
      ensures Valid() && state == WithField(old(state), StreamInfoKey, streamInfo)
    {
      SetState(StreamInfoKey, streamInfo);
    }

    /** Typing into the raw-patch input. */
    method HandleStreamingConfigInputChange(text: string)
      requires Valid()
      modifies this
      ensures Valid() && state == WithField(old(state), InputKey, Str(text))
    {
      SetState(InputKey, Str(text));
    }

    /** The continuation of the Android permission request, whatever the user granted. */
    method PermissionsRequested()
      requires Valid()
      modifies this
      ensures Valid() && state == WithField(old(state), PermissionKey, Bool(true))
    {
      SetState(PermissionKey, Bool(true));
    }

    /**
     * Submitting the raw patch: clear the error, parse the input, then record
     * the parse error or merge the parsed patch into the configuration.
     * `JSON.parse` never yields an object with a repeated name.
     */
    method HandleStreamingConfigInputSubmit(parse: Value -> Result<Value, string>)
      requires Valid()
      requires forall t :: parse(t).Success? ==> WellFormed(parse(t).value)
      modifies this
      ensures Valid() && state == Submitted(old(state), parse(Prop(old(state), InputKey)))
    {
      ghost var before := state;
      SetState(ErrorKey, Null);
      PropAssign(before.members, ErrorKey, Null, InputKey);
      PropAssign(before.members, ErrorKey, Null, ConfigKey);
      var parsed := parse(Prop(state, InputKey));
      match parsed {
        case Failure(message) =>
          SetState(ErrorKey, Str(message));
        case Success(toMerge) =>
          PropWellFormed(state, ConfigKey);
          MergeRecursiveWellFormed(Prop(state, ConfigKey), toMerge);
          var streamingConfig := MergeRecursive(Prop(state, ConfigKey), toMerge);
          SetState(ConfigKey, streamingConfig);
      }
    }

    /**
     * `useStateOfPath(keyPath)`: the value read along the path, and the setter
     * bound to it; when the read throws, no setter is made (`None`, `null`).
     */
    method UseStateOfPath(keyPath: string) returns (value: Option<Value>, onChange: Setter?)
      requires Valid()
      ensures value == Read(state, Split(keyPath))
      ensures value.Some? <==> onChange != null
      ensures onChange != null ==>
        fresh(onChange) && onChange.Valid() && onChange.app == this &&
        onChange.lastPath + [onChange.lastKey] == Split(keyPath) &&
        onChange.toMerge == Nest(Parent(Split(keyPath)), Obj([]))
    {
      var keys := Split(keyPath);
      var lastKey := LastKey(keys);
      var toMerge, lastPath := BuildPatch(Parent(keys));
      value := Read(state, keys);
      if value.None? {
        onChange := null;
      } else {
        onChange := new Setter(this, toMerge, lastPath, lastKey);
      }
    }

    /** `bindStateOfPath(keyPath)`: the same pair as an object `{value, onChange}`. */
    method BindStateOfPath(keyPath: string) returns (binding: Option<Binding>)
      requires Valid()
      ensures binding.None? <==> Read(state, Split(keyPath)).None?
      ensures binding.Some? ==>
        binding.value.value == Read(state, Split(keyPath)).value &&
        fresh(binding.value.onChange) && binding.value.onChange.Valid() && binding.value.onChange.app == this &&
        binding.value.onChange.lastPath + [binding.value.onChange.lastKey] == Split(keyPath)
    {
      var value, onChange := UseStateOfPath(keyPath);
      if value.None? {
        binding := None;
      } else {
        binding := Some(Binding(value.value, onChange));
      }
    }
  }

  /**
   * The `onChange` closure of `useStateOfPath`: it keeps the patch object
   * `toMerge`, the place of `lastObj` inside it and the last key.
   */
  class Setter {
    const app: App
    const lastPath: seq<string>
    const lastKey: string
    var toMerge: Value
    /** The members of `lastObj`: none before the first write, the last key afterwards. */
    ghost var slot: seq<Member>

    ghost predicate Valid()
      reads this
    {
      toMerge == Nest(lastPath, Obj(slot)) &&
      (slot == [] || (|slot| == 1 && slot[0].key == lastKey))
    }

    constructor(app: App, toMerge: Value, lastPath: seq<string>, lastKey: string)
      requires toMerge == Nest(lastPath, Obj([]))
      ensures Valid() && slot == []
      ensures this.app == app && this.toMerge == toMerge && this.lastPath == lastPath && this.lastKey == lastKey
    {
      this.app := app;
      this.toMerge := toMerge;
      this.lastPath := lastPath;
      this.lastKey := lastKey;
      slot := [];
    }

    /**
     * `onChange(v)`: `lastObj[lastKey] = v`, after which the shared patch holds
     * exactly `v` at the bound path whatever was written before, then the
     * state becomes the recursive merge of the state with the patch.
     */
    method OnChange(v: Value)
      requires Valid() && app.Valid() && WellFormed(v)
      modifies this, app
      ensures Valid() && app.Valid()
      ensures toMerge == Nest(lastPath + [lastKey], v)
      ensures app.state == AfterChange(old(app.state), lastPath + [lastKey], v)
    {
      SetInNest(lastPath, slot, lastKey, v);
      assert Assign(slot, lastKey, v) == [Member(lastKey, v)];
      NestSnoc(lastPath, lastKey, v);
      toMerge := SetIn(toMerge, lastPath, lastKey, v);
      slot := [Member(lastKey, v)];
      AfterChangeWellFormed(app.state, lastPath + [lastKey], v);
      var newState := MergeRecursive(app.state, toMerge);
      app.state := newState;
    }
  }
}

# Path-addressed configuration store of the Pili streaming demo screen

The demo screen of the Pili React Native streaming SDK (`demo/App.js`) keeps
the whole configuration of the native `Streaming` component in its component
state: a tree of plain objects with primitive leaves. The form edits that tree
in two ways:

- **Dot-path bindings.** `bindStateOfPath('streamingConfig.profile.quicEnable')`
  splits the path on dots. It reads the current value by folding property
  lookups over the state. It returns an `onChange` that writes a new value into
  a sparse patch object built along the path and merges that patch recursively
  into the state with `merge.recursive(true, state, patch)`.
- **Raw JSON patches.** The user types JSON and submits it. The text is parsed
  and merged recursively into `streamingConfig`. A parse error is shown instead
  and the configuration is left as it was.

`render` also passes the configuration to the native component. It adds the
aliases `profile.video` and `profile.audio` for the profile's video and audio
settings.

The model is a set of Dafny modules:

- `JsValue` (`js_value.dfy`): JavaScript values.
  - Objects are ordered member lists, in the order their properties were created.
  - It defines property lookup and assignment, the fold of lookups that reads a
    dot path, and chains of one-key objects.
- `KeyPath` (`key_path.dfy`): `split('.')`, the last key, and everything but the
  last key.
- `Merge` (`merge.dfy`): the semantics assumed for `merge.recursive(true, …)`.
  - It is a right-biased recursive union built on a fresh clone.
  - A patch value that is not an object replaces the base value.
  - Base keys keep their order, and the patch's new keys follow them.
  - Arguments that are not plain objects are skipped.
- `Config` (`config.dfy`): the initial component state, the default
  `streamingConfig`, and the 28 key paths the form binds.
  - `isAndroid` selects the platform-dependent entries.
  - The SDK's `consts.*` entries and the 0.5 volumes are opaque tagged leaves.
- `Handlers` (`handlers.dfy`): the state after each handler, as functions of
  the state before it, with the read-after-write, sibling-preservation and
  idempotence lemmas.
- `Props` (`props.dfy`): the `props` object derived in `render`.
- `DemoApp` (`app.dfy`): the component as a class `App` holding `state`.
  - Its methods are the handlers.
  - `UseStateOfPath`/`BindStateOfPath` build the patch with a loop (`BuildPatch`).
  - They return a `Setter` object that stands for the `onChange` closure. The
    `Setter` owns the shared patch and writes into it in place.

The reference `lastObj` into the patch is modelled as the path `lastPath` from
the patch's root. `lastObj[lastKey] = v` is the write `SetIn` at that path.

A dot-path read does what demo/App.js:139 does. Reading a missing final key
yields `undefined`. A missing or `null` intermediate value makes the next lookup
throw a `TypeError`, which is modelled as `None` (`JsValue.ReadDefined`). The
screen then renders nothing.

Every state the component reaches is well formed: no object in it repeats a
property name at any depth (`DemoApp.App.Valid`). The initial state is well
formed, and every handler keeps it so.

## Model

| member | source | states |
|---|---|---|
| KeyPath.Split | demo/App.js:133 | splitting a key path always yields at least one segment, and no segment contains a dot |
| KeyPath.LastKey | demo/App.js:134 | `keys[keys.length - 1]` is the final segment, after all the others, and contains no dot when the segments contain none |
| KeyPath.Parent | demo/App.js:134-135 | `keys.slice(0, -1)` followed by `lastKey` gives back exactly the segments, so `lastKey` is the final segment |
| KeyPath.JoinSplit | demo/App.js:133 | joining the split segments with dots gives back the key path, so splitting loses nothing |
| KeyPath.SplitJoin | demo/App.js:133 | dot-free segments come back unchanged from joining and then splitting |
| JsValue.LookupAssign | demo/App.js:136 | `obj[k] = v` makes `k` look up to `v` and leaves every other property, present or absent, as it was |
| JsValue.AssignDistinct | demo/App.js:136 | a property write never makes a name occur twice |
| JsValue.Assign | demo/App.js:136-141 | `obj[k] = v` keeps every existing property in its place and, when `k` is new, adds exactly `{k: v}` after them |
| JsValue.AssignAppends | demo/App.js:136 | writing a property the object lacks adds it after the existing ones (order of creation) |
| JsValue.AssignWellFormed | demo/App.js:136-141 | writing a well-formed value into a well-formed object leaves it well formed |
| JsValue.PropWellFormed | demo/App.js:139 | every property of a well-formed value is well formed |
| JsValue.Step | demo/App.js:139 | one step of the fold, `obj[key]`, throws exactly on `undefined` and `null`, and yields `undefined` for a missing key or a primitive |
| JsValue.Read | demo/App.js:139 | a path read that does not throw yields the value found by following the path's lookups |
| JsValue.ReadSnoc | demo/App.js:139 | the path read is a fold: reading `path + [k]` is one more lookup of `k` on what `path` reads, and it throws if that read throws |
| JsValue.ReadDefined | demo/App.js:139 | a path read throws exactly when one of the values it indexes on the way, the root included, is `undefined` or `null` |
| JsValue.ReadMissingLast | demo/App.js:139 | a missing final key in an object the read reached yields `undefined`, not an exception |
| JsValue.UndefinedReads | demo/App.js:139 | indexing below `undefined` throws |
| JsValue.ReadObjPrefix | demo/App.js:139 | a read that reaches an object passed through objects at every prefix |
| JsValue.Nest | demo/App.js:132-141 | the one-path patch holds the inner value at the end of its path |
| JsValue.SetIn | demo/App.js:141 | writing `k` into an object reached by `path` makes `path + [k]` read the written value |
| JsValue.NestChain | demo/App.js:132-137 | the patch along a path is, at every proper prefix, an object with exactly one property, the next segment; at the full path it holds the inner value |
| JsValue.NestOffPath | demo/App.js:140-141 | the patch holds nothing off its path: a read that leaves the path finds `undefined` there and throws below it |
| JsValue.SetInNest | demo/App.js:141 | writing `lastObj[lastKey]` through the path of `lastObj` changes only the innermost node of the chain |
| JsValue.NestSnoc | demo/App.js:141 | an innermost node holding `{lastKey: v}` is the chain along the full key path ending in `v` |
| JsValue.NestWellFormed | demo/App.js:132-137 | a chain of one-key objects around a well-formed value is well formed |
| Merge.DeepMerge | demo/App.js:142 | a patch that is not an object replaces the base; two objects merge into an object that keeps every base key in its place |
| Merge.MergeWellFormed | demo/App.js:142 | the recursive union of two well-formed values is well formed |
| Merge.MergeRecursiveWellFormed | demo/App.js:142 | `merge.recursive(true, a, b)` of well-formed values is well formed |
| Merge.MergeRecursive | demo/App.js:142 | `merge.recursive(true, …)` always returns a fresh plain object |
| Merge.MergeProp | demo/App.js:142 | a property of the merge of two objects is the patch's value merged into the base's, or the base's value where the patch lacks it |
| Merge.MergeHas | demo/App.js:142 | a merge of two objects has exactly the property names of either |
| Merge.MergeReadBack | demo/App.js:142 | after merging the one-path patch, the path holds the old value merged with `v`, which is `v` unless both are objects |
| Merge.MergeKeepsSiblings | demo/App.js:142 | merging a one-path patch leaves every path that leaves it below an object as it read before |
| Merge.MergeTwice | demo/App.js:142 | the recursive union is idempotent for a well-formed patch |
| Merge.SelfMerge | demo/App.js:142 | a well-formed value merged with itself is itself |
| Merge.AbsorbIntoEmpty | demo/App.js:124 | the clone made because of the first argument `true` equals the object cloned |
| Merge.MergeRecursiveOfObjects | demo/App.js:124 | on two plain objects `merge.recursive(true, a, b)` is their recursive union |
| Merge.MergeRecursiveTwice | demo/App.js:142 | applying the same well-formed patch twice gives the state that applying it once gives |
| Merge.MergeOneLeaf | demo/App.js:142 | merging `{k: x}` with a non-object `x` replaces the value of `k` in place or adds `k` after the existing keys (order of creation), and nothing else moves |
| Config.InitialState | demo/App.js:15-114 | the initial component state; `Config.InitialStateWellFormed`, `Config.ConfigOfInitialState` and the leaf lemmas state its properties |
| Config.DefaultStreamingConfig | demo/App.js:21-113 | the default `streamingConfig`; `Config.ConfigKeysDistinct`, `Config.DefaultConfigWellFormed` and `Config.ConfigLeaf` state its properties |
| Config.InitialStateWellFormed | demo/App.js:15-114 | the initial state repeats no property name at any depth |
| Config.DefaultConfigWellFormed | demo/App.js:21-113 | the default configuration repeats no property name at any depth |
| Config.ProfileWellFormed | demo/App.js:64-112 | the default profile repeats no property name at any depth |
| Config.FaceBeautyWellFormed | demo/App.js:30-34 | the default beauty setting repeats no property name |
| Config.WatermarkWellFormed | demo/App.js:35-46 | the default watermark setting repeats no property name at any depth |
| Config.VideoWellFormed | demo/App.js:65-79 | the default video setting repeats no property name at any depth |
| Config.AudioWellFormed | demo/App.js:80-83 | the default audio setting repeats no property name |
| Config.CameraWellFormed | demo/App.js:90-98 | the default camera setting repeats no property name |
| Config.MicrophoneWellFormed | demo/App.js:99-103 | the default microphone setting repeats no property name |
| Config.BoundPaths | demo/App.js:238-286 | the form binds 28 key paths, each naming a setting below `streamingConfig` |
| Config.ConfigKeysDistinct | demo/App.js:21-113 | the default configuration has the 20 listed keys, in source order, with none repeated |
| Config.ProfileKeysDistinct | demo/App.js:64-112 | the default profile has the 11 listed keys, in source order, with none repeated |
| Config.ConfigOfInitialState | demo/App.js:15-21 | a read below `streamingConfig` in the initial state is the same read in the default configuration |
| Config.ReadConfigMember | demo/App.js:21-113 | a read through any top-level configuration key continues in that key's default value |
| Config.ReadProfileMember | demo/App.js:64-112 | a read through any profile key continues in that key's default value |
| Config.ConfigLeaf | demo/App.js:22-62 | every top-level configuration entry except the five nested ones is a leaf of the initial state |
| Config.ProfileLeaf | demo/App.js:64-111 | every profile entry except the five nested settings is a leaf of the initial state |
| Config.SettingLeaf | demo/App.js:65-103 | a leaf member of a nested profile setting is a leaf of the initial state |
| Config.ControlPathsResolve | demo/App.js:238-241 | the stream switches and the camera input are bound to leaves of the initial state |
| Config.CodecPathsResolve | demo/App.js:243 | the codec input is bound to a leaf of the initial state |
| Config.CameraPathsResolve | demo/App.js:245-247 | the camera setting inputs are bound to leaves of the initial state |
| Config.MicrophonePathsResolve | demo/App.js:249-251 | the microphone setting inputs are bound to leaves of the initial state |
| Config.EncoderPathsResolve | demo/App.js:253-254 | the video encoding inputs are bound to leaves of the initial state |
| Config.BitratePathsResolve | demo/App.js:259-262 | the QUIC, bitrate-adjust and rate-control inputs are bound to leaves of the initial state |
| Config.PicturePathsResolve | demo/App.js:265-274 | the beauty, watermark and picture-streaming inputs are bound to leaves of the initial state |
| Config.DevicePathsResolve | demo/App.js:276-279 | the torch, capture and mirror inputs are bound to leaves of the initial state |
| Config.AudioMixPathsResolve | demo/App.js:281-286 | the audio-mix inputs are bound to leaves of the initial state |
| Config.BoundPathsResolve | demo/App.js:238-286 | every one of the 28 bound key paths reads a defined leaf of the initial state on either platform, so no input starts out throwing or unbound |
| Handlers.WithField | demo/App.js:116-119 | a one-key `setState` keeps the state a plain object |
| Handlers.WithFieldLookup | demo/App.js:116-119 | a one-key `setState` sets that key and leaves every other key, present or absent, as it was |
| Handlers.Submitted | demo/App.js:120-129 | the state after a submission is a plain object |
| Handlers.SubmitOutcome | demo/App.js:120-128 | after a submission the error is the parse message on failure and `null` on success; the configuration is unchanged on failure and is the recursive merge of the old configuration with the patch on success; no other key changes |
| Handlers.SubmitNonObject | demo/App.js:122-124 | a patch that parses to a non-object leaves the configuration unchanged |
| Handlers.SubmitTwice | demo/App.js:122-124 | submitting the same well-formed patch again leaves the configuration as the first submission left it |
| Handlers.AfterChange | demo/App.js:140-143 | the state after `onChange(v)` is a plain object |
| Handlers.ChangeReadBack | demo/App.js:140-143 | after `onChange(v)` the bound path reads `v`, or the merge of the old value and `v` when both are objects |
| Handlers.ChangeKeepsSiblings | demo/App.js:140-143 | after `onChange(v)` every path that leaves the bound path below an object reads as before, at every depth |
| Handlers.ChangeTwice | demo/App.js:140-143 | writing the same well-formed value twice through one binding gives the state that writing it once gives |
| Handlers.ChangeLastWins | demo/App.js:140-143 | of two writes through the same binding, the bound path holds the later one when it is not an object; a later object is merged into the earlier value |
| Handlers.BoundInputWrite | demo/App.js:140-143 | writing any value through any of the 28 bound paths of the initial state makes that path read exactly that value, since each path starts at a leaf |
| Handlers.WithFieldWellFormed | demo/App.js:116-119 | a one-key `setState` with a well-formed value keeps the state well formed |
| Handlers.SubmittedWellFormed | demo/App.js:120-128 | a submission keeps the state well formed when the parsed patch is well formed |
| Handlers.AfterChangeWellFormed | demo/App.js:140-143 | `onChange(v)` with a well-formed `v` keeps the state well formed |
| Handlers.StatePropsDistinct | demo/App.js:195-214 | in a well-formed state the props derived from the configuration repeat no key |
| Props.AliasedProfile | demo/App.js:199-203 | the copied profile keeps the profile's keys first, in order, and has `video` and `audio` bound to the video and audio settings |
| Props.StreamingProps | demo/App.js:195-214 | the props keep the configuration's keys first, in order, and carry the two callbacks and the preview style |
| Props.PropsDefined | demo/App.js:195-203 | building the props throws exactly when the configuration or its profile is `undefined` or `null` |
| Props.ProfileAliases | demo/App.js:199-203 | `profile.video` and `profile.audio` read what `profile.videoStreamingSetting` and `profile.audioStreamingSetting` read; every other profile key is as in the configuration |
| Props.OtherKeysKept | demo/App.js:195-214 | every key other than `profile`, the two callbacks and `style` is passed on with the configuration's value, or stays absent |
| Props.PropsDistinct | demo/App.js:195-214 | the props repeat no key when the configuration repeats none |
| DemoApp.BuildPatch | demo/App.js:132-137 | the reduce builds a chain of one-key objects along all but the last segment, and `lastObj` is its innermost node, still empty |
| DemoApp.App.constructor | demo/App.js:15-114 | the component starts in the initial state, which is well formed |
| DemoApp.App.SetState | demo/App.js:116-119 | a one-key `setState` is the shallow merge of that key into the state and keeps the state well formed |
| DemoApp.App.HandleStateChange | demo/App.js:116 | the state callback records the component's state under `state` |
| DemoApp.App.HandleStreamInfoChange | demo/App.js:117 | the stream-information callback records it under `streamInfo` |
| DemoApp.App.HandleStreamingConfigInputChange | demo/App.js:119 | typing stores the text under `streamingConfigInput` |
| DemoApp.App.PermissionsRequested | demo/App.js:161-163 | once the permission request settles, `androidPermissionGranted` is `true` |
| DemoApp.App.HandleStreamingConfigInputSubmit | demo/App.js:120-129 | clearing the error, parsing the input and then recording the error or merging the patch leaves the state that `Submitted` describes, still well formed |
| DemoApp.App.UseStateOfPath | demo/App.js:131-146 | returns the fold of lookups along the split path, or throws (no setter) when the fold throws; the fresh setter is bound to the split path with an empty innermost patch node |
| DemoApp.App.BindStateOfPath | demo/App.js:148-151 | returns `{value, onChange}` for the path, or throws exactly when the read throws |
| DemoApp.Setter.constructor | demo/App.js:140-144 | the closure starts with the empty patch chain built along the path |
| DemoApp.Setter.OnChange | demo/App.js:140-144 | `lastObj[lastKey] = v` leaves the shared patch holding exactly `v` at the full key path, whatever was written before; the state becomes the recursive merge of the old state with that patch and stays well formed |

## Left out

- The React rendering, the JSX layout and the input widgets from `./components/Input` are not modelled. `./components/Input` is not part of this model.
- The native `Streaming` component is opaque. Its two callbacks appear only as the field assignments `HandleStateChange` and `HandleStreamInfoChange`, and as opaque leaves inside the props.
- The Android permission request (demo/App.js:153-165) is asynchronous platform I/O. Only its continuation is modelled, as `PermissionsRequested`. That continuation sets `androidPermissionGranted` to `true` whatever the user granted, and the model keeps this.
- `JSON.parse` is a parameter of `HandleStreamingConfigInputSubmit` that returns either a value or an error message. `e && e.message` is modelled as that message. The method requires that every value the parser returns repeats no property name, as `JSON.parse` ensures by keeping the last of repeated names.
- Merge.MergeRecursive: the `merge` package is not verified. The model states an assumed semantics for `merge.recursive(true, …)`. That semantics is a right-biased recursive union on a clone that skips non-object arguments. How the package treats arrays and prototype keys is not modelled. The assumption may differ from the package at the top level of a raw patch: if the package keeps a base object whose patch value is not an object, a submitted `{"watermarkSetting": null}` would keep the object, where the model replaces it with `null`. `onChange` is not affected for key paths of two or more segments, which all 28 at demo/App.js:238-286 are. For a one-segment path the top-level patch value is the written value, and the same difference applies.
- React batches `setState` and merges each update shallowly into the state. The model applies each update at once. `onChange` passes `setState` the whole merged state, and the model treats that as a replacement of the state.
- Property lookups are on own string keys only. The model does not cover the prototype chain, special keys such as `__proto__`, indexing into strings or arrays, or spreading strings and arrays (`Props.Spread` of a non-object is empty).
- The leaves that are not interpreted are opaque tags: the 0.5 volumes, the SDK's `consts.*` entries and the two callbacks. Each `consts.*` entry is assumed to be defined and not a plain object; `Config.BoundPathsResolve` depends on this. Numbers are unbounded integers (`Num`); only the fractional 0.5 volumes are tags.
- JsValue.Assign, JsValue.AssignAppends, Merge.DeepMerge, Merge.MergeOneLeaf: key order is the order of creation. JavaScript lists integer-like keys such as `"1"` first, in ascending order; that ordering is not modelled. No key of the default configuration is integer-like.
- The bare expression statement at demo/App.js:218 is not modelled. Neither are the texts displayed for the state, the stream information and the error.
- Config.BoundPathsResolve: the bound paths are given as segment lists. That the literal dot paths of demo/App.js:238-286 split into exactly these lists is not proved for each literal. `KeyPath.SplitJoin` proves it for every list of dot-free segments.

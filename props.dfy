/**
 * The props that the screen hands to the native `Streaming` component
 * (demo/App.js:195-214): the streaming configuration spread out, with
 * `profile` replaced by a copy that also carries the short aliases `video`
 * and `audio` for its video and audio settings, plus the two state callbacks
 * and a fixed style.
 */
module Props {
  import opened Wrappers
  import opened JsValue

  /** The callbacks `this.handleStateChange` and `this.handleStreamInfoChange`, as opaque leaves. */
  const StateChangeHandler: nat := 15
  const StreamInfoChangeHandler: nat := 16

  /** `{...v}`: the own members of a plain object; spreading `undefined`, `null` or a number adds nothing. */
  function Spread(v: Value): seq<Member>
  {
    if v.Obj? then v.members else []
  }

  /** The style literal of demo/App.js:206-212. */
  function PreviewStyle(): Value
  {
    Obj([
      Member("width", Str("100%")),
      Member("height", Num(200)),
      Member("backgroundColor", Str("transparent")),
      Member("borderBottomColor", Str("#333")),
      Member("borderBottomWidth", Num(1))
    ])
  }

  /** `{...profile, video: profile.videoStreamingSetting, audio: profile.audioStreamingSetting}`. */
  function AliasedProfile(profile: Value): (r: seq<Member>)
    ensures |r| >= |Spread(profile)| && forall i :: 0 <= i < |Spread(profile)| ==> r[i].key == Spread(profile)[i].key
    ensures Lookup(r, "video") == Some(Prop(profile, "videoStreamingSetting"))
    ensures Lookup(r, "audio") == Some(Prop(profile, "audioStreamingSetting"))
  {
    var withVideo := Assign(Spread(profile), "video", Prop(profile, "videoStreamingSetting"));
    LookupAssign(withVideo, "audio", Prop(profile, "audioStreamingSetting"), "video");
    LookupAssign(Spread(profile), "video", Prop(profile, "videoStreamingSetting"), "video");
    LookupAssign(withVideo, "audio", Prop(profile, "audioStreamingSetting"), "audio");
    var aliased := Assign(withVideo, "audio", Prop(profile, "audioStreamingSetting"));
    aliased
  }

  /**
   * The `props` object built in `render`; `None` when evaluating it throws,
   * that is when `streamingConfig` or `streamingConfig.profile` is
   * `undefined` or `null`.
   */
  function StreamingProps(config: Value): (r: Option<seq<Member>>)
    ensures r.Some? ==>
      |r.value| >= |Spread(config)| && forall i :: 0 <= i < |Spread(config)| ==> r.value[i].key == Spread(config)[i].key
    ensures r.Some? ==>
      Lookup(r.value, "onStateChange") == Some(Abstract(StateChangeHandler)) &&
      Lookup(r.value, "onStreamInfoChange") == Some(Abstract(StreamInfoChangeHandler)) &&
      Lookup(r.value, "style") == Some(PreviewStyle())
  {
    if Read(config, ["profile", "videoStreamingSetting"]).None? then None
    else
      var withProfile := Assign(Spread(config), "profile", Obj(AliasedProfile(Prop(config, "profile"))));
      var withState := Assign(withProfile, "onStateChange", Abstract(StateChangeHandler));
      var withCallbacks := Assign(withState, "onStreamInfoChange", Abstract(StreamInfoChangeHandler));
      LookupAssign(withProfile, "onStateChange", Abstract(StateChangeHandler), "onStateChange");
      LookupAssign(withState, "onStreamInfoChange", Abstract(StreamInfoChangeHandler), "onStateChange");
      LookupAssign(withState, "onStreamInfoChange", Abstract(StreamInfoChangeHandler), "onStreamInfoChange");
      LookupAssign(withCallbacks, "style", PreviewStyle(), "onStateChange");
      LookupAssign(withCallbacks, "style", PreviewStyle(), "onStreamInfoChange");
      LookupAssign(withCallbacks, "style", PreviewStyle(), "style");
      var props := Assign(withCallbacks, "style", PreviewStyle());
      Some(props)
  }

  /** The keys that `render` sets on top of the spread configuration. */
  predicate OverriddenKey(k: string)
  {
    k == "profile" || k == "onStateChange" || k == "onStreamInfoChange" || k == "style"
  }

  /** Building the props throws exactly when the configuration or its profile is `undefined` or `null`. */
  lemma PropsDefined(config: Value)
    ensures StreamingProps(config).Some? <==>
      !config.Undefined? && !config.Null? && !Prop(config, "profile").Undefined? && !Prop(config, "profile").Null?
  {
  }

  /**
   * The derived props carry `profile.video` and `profile.audio`, equal to the
   * configuration's `profile.videoStreamingSetting` and
   * `profile.audioStreamingSetting`; every other key of the profile, present
   * or absent, is as in the configuration.
   */
  lemma {:induction false} ProfileAliases(config: Value, k: string)
    requires StreamingProps(config).Some?
    ensures Read(Obj(StreamingProps(config).value), ["profile", "video"]) == Read(config, ["profile", "videoStreamingSetting"])
    ensures Read(Obj(StreamingProps(config).value), ["profile", "audio"]) == Read(config, ["profile", "audioStreamingSetting"])
    ensures k != "video" && k != "audio" ==>
      Lookup(Spread(Prop(Obj(StreamingProps(config).value), "profile")), k) == Lookup(Spread(Prop(config, "profile")), k)
  {
    var profile := Prop(config, "profile");
    var pm := AliasedProfile(profile);
    var withProfile := Assign(Spread(config), "profile", Obj(pm));
    var withCallbacks := Assign(Assign(withProfile, "onStateChange", Abstract(StateChangeHandler)),
                                "onStreamInfoChange", Abstract(StreamInfoChangeHandler));
    var props := Assign(withCallbacks, "style", PreviewStyle());
    assert StreamingProps(config).value == props;
    PropAssign(withCallbacks, "style", PreviewStyle(), "profile");
    PropAssign(Assign(withProfile, "onStateChange", Abstract(StateChangeHandler)), "onStreamInfoChange", Abstract(StreamInfoChangeHandler), "profile");
    PropAssign(withProfile, "onStateChange", Abstract(StateChangeHandler), "profile");
    PropAssign(Spread(config), "profile", Obj(pm), "profile");
    assert Prop(Obj(props), "profile") == Obj(pm);
    PropsDefined(config);
    PropAssign(Assign(Spread(profile), "video", Prop(profile, "videoStreamingSetting")), "audio", Prop(profile, "audioStreamingSetting"), "video");
    PropAssign(Spread(profile), "video", Prop(profile, "videoStreamingSetting"), "video");
    PropAssign(Assign(Spread(profile), "video", Prop(profile, "videoStreamingSetting")), "audio", Prop(profile, "audioStreamingSetting"), "audio");
    ReadPair(Obj(props), "profile", "video");
    ReadPair(config, "profile", "videoStreamingSetting");
    ReadPair(Obj(props), "profile", "audio");
    ReadPair(config, "profile", "audioStreamingSetting");
    SpreadProp(profile, "videoStreamingSetting");
    SpreadProp(profile, "audioStreamingSetting");
    LookupAssign(Assign(Spread(profile), "video", Prop(profile, "videoStreamingSetting")), "audio", Prop(profile, "audioStreamingSetting"), k);
    LookupAssign(Spread(profile), "video", Prop(profile, "videoStreamingSetting"), k);
  }

  /** Every key that `render` does not set is passed on with the configuration's value, or stays absent. */
  lemma {:induction false} OtherKeysKept(config: Value, k: string)
    requires StreamingProps(config).Some? && !OverriddenKey(k)
    ensures Lookup(StreamingProps(config).value, k) == Lookup(Spread(config), k)
  {
    var withProfile := Assign(Spread(config), "profile", Obj(AliasedProfile(Prop(config, "profile"))));
    var withState := Assign(withProfile, "onStateChange", Abstract(StateChangeHandler));
    var withCallbacks := Assign(withState, "onStreamInfoChange", Abstract(StreamInfoChangeHandler));
    LookupAssign(withCallbacks, "style", PreviewStyle(), k);
    LookupAssign(withState, "onStreamInfoChange", Abstract(StreamInfoChangeHandler), k);
    LookupAssign(withProfile, "onStateChange", Abstract(StateChangeHandler), k);
    LookupAssign(Spread(config), "profile", Obj(AliasedProfile(Prop(config, "profile"))), k);
  }

  /** The props are a proper object whenever the configuration is: no key occurs twice. */
  lemma PropsDistinct(config: Value)
    requires StreamingProps(config).Some? && DistinctKeys(Spread(config))
    ensures DistinctKeys(StreamingProps(config).value)
  {
    var withProfile := Assign(Spread(config), "profile", Obj(AliasedProfile(Prop(config, "profile"))));
    var withState := Assign(withProfile, "onStateChange", Abstract(StateChangeHandler));
    var withCallbacks := Assign(withState, "onStreamInfoChange", Abstract(StreamInfoChangeHandler));
    AssignDistinct(Spread(config), "profile", Obj(AliasedProfile(Prop(config, "profile"))));
    AssignDistinct(withProfile, "onStateChange", Abstract(StateChangeHandler));
    AssignDistinct(withState, "onStreamInfoChange", Abstract(StreamInfoChangeHandler));
    AssignDistinct(withCallbacks, "style", PreviewStyle());
  }

  // ---------------------------------------------------------------------------
  // Helpers

  /** A two-key read through values that do not throw is two property lookups. */
  lemma ReadPair(root: Value, a: string, b: string)
    requires !root.Undefined? && !root.Null? && !Prop(root, a).Undefined? && !Prop(root, a).Null?
    ensures Read(root, [a, b]) == Some(Prop(Prop(root, a), b))
  {
    assert [b][1..] == [];
    assert Read(Prop(root, a), [b]) == Some(Prop(Prop(root, a), b));
    assert [a, b][0] == a && [a, b][1..] == [b];
  }

  /** Looking a key up in the spread copy finds what a property read of the original finds. */
  lemma SpreadProp(v: Value, k: string)
    ensures Prop(Obj(Spread(v)), k) == Prop(v, k)
  {
  }
}

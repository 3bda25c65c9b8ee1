/**
 * The screen's initial component state and the default streaming
 * configuration (demo/App.js:15-114), and the key paths that the form binds
 * to inputs (demo/App.js:238-286).
 *
 * Numbers the model does not need to interpret (the 0.5 volumes) and the SDK's
 * `consts.*` entries are `Abstract` leaves, tagged by their source expression;
 * the entries that depend on the platform take `isAndroid`.
 */
module Config {
  import opened JsValue

  /*
   * Tags of the leaves the model does not interpret: the 0.5 volumes and the
   * SDK's `consts.*` entries, one tag per distinct source expression.
   */
  const HalfVolume: nat := 0  // 0.5
  const AndroidSoftwareCodec: nat := 1  // consts.avCodecTypes_android.SW_VIDEO_CODEC
  const IOSFoundationEncoder: nat := 2  // consts.avCodecTypes_iOS.PLH264EncoderType_AVFoundation
  const AutoBitrateAdjust: nat := 3  // consts.bitrateAdjustModes.auto
  const AutoFocus: nat := 4  // consts.cameraFocusModes.auto
  const AndroidMediumResolution: nat := 5  // consts.cameraResolutions_android.MEDIUM_RATIO_4_3
  const IOSMediumResolution: nat := 6  // consts.cameraResolutions_iOS.AVCaptureSessionPresetMedium
  const LandscapeLeft: nat := 7  // consts.cameraVideoOrientations.landscapeLeft
  const BitratePriority: nat := 8  // consts.encoderRCModes.bitratePriority
  const MonoChannel: nat := 9  // consts.microphoneChannels.mono
  const SampleRate16000: nat := 10  // consts.microphoneSampleRates.r16000
  const PortraitEncoding: nat := 11  // consts.videoEncodeOrientations.portrait
  const Encoding480: nat := 12  // consts.videoEncodings.e480
  const AndroidBaselineProfile: nat := 13  // consts.videoH264Profiles_android.baseline
  const IOSBaselineAutoLevel: nat := 14  // consts.videoH264Profiles_iOS.baselineAutoLevel

  function FaceBeautySetting(): Value
  {
    Obj([Member("beautyLevel", Num(0)), Member("whiten", Num(0)), Member("redden", Num(0))])
  }

  function WatermarkSetting(): Value
  {
    Obj([
      Member("src", Null),
      Member("alpha", Num(122)),
      Member("position", Obj([Member("x", Num(0)), Member("y", Num(0))])),
      Member("size", Obj([Member("width", Num(50)), Member("height", Num(50))]))
    ])
  }

  function VideoStreamingSetting(isAndroid: bool): Value
  {
    Obj([
      Member("fps", Num(30)),
      Member("bps", Num(800 * 1024)),
      Member("maxFrameInterval", Num(60)),
      Member("encodeOrientation", Abstract(PortraitEncoding)),
      Member("h264Profile",
        if isAndroid then Abstract(AndroidBaselineProfile)
        else Abstract(IOSBaselineAutoLevel)),
      Member("customVideoEncodeSize", Obj([Member("width", Num(800)), Member("height", Num(1024))]))
    ])
  }

  function AudioStreamingSetting(): Value
  {
    Obj([Member("rate", Num(44100)), Member("bitrate", Num(96 * 1024))])
  }

  function CameraStreamingSetting(isAndroid: bool): Value
  {
    Obj([
      Member("resolution",
        if isAndroid then Abstract(AndroidMediumResolution)
        else Abstract(IOSMediumResolution)),
      Member("focusMode", Abstract(AutoFocus)),
      Member("videoOrientation", Abstract(LandscapeLeft))
    ])
  }

  function MicrophoneSteamingSetting(): Value
  {
    Obj([
      Member("sampleRate", Abstract(SampleRate16000)),
      Member("channel", Abstract(MonoChannel)),
      Member("isAecEnable", Bool(false))
    ])
  }

  function Profile(isAndroid: bool): Value
  {
    Obj([
      Member("videoStreamingSetting", VideoStreamingSetting(isAndroid)),
      Member("audioStreamingSetting", AudioStreamingSetting()),
      Member("encodingSize", Abstract(Encoding480)),
      Member("avCodecType",
        if isAndroid then Abstract(AndroidSoftwareCodec)
        else Abstract(IOSFoundationEncoder)),
      Member("cameraStreamingSetting", CameraStreamingSetting(isAndroid)),
      Member("microphoneSteamingSetting", MicrophoneSteamingSetting()),
      Member("quicEnable", Bool(false)),
      Member("bitrateAdjustMode", Abstract(AutoBitrateAdjust)),
      Member("adaptiveBitrateRange", Obj([Member("minBitrate", Num(1024)), Member("maxBitrate", Num(1024 * 1024))])),
      Member("encoderRCMode", Abstract(BitratePriority)),
      Member("streamInfoUpdateInterval", Num(5))
    ])
  }

  /** The default `streamingConfig`. */
  function DefaultStreamingConfig(isAndroid: bool): Value
  {
    Obj([
      Member("rtmpURL", Str("rtmp://pili-publish.qnsdk.com/sdk-live/111")),
      Member("camera", Str("back")),
      Member("muted", Bool(false)),
      Member("zoom", Num(1)),
      Member("focus", Bool(false)),
      Member("started", Bool(true)),
      Member("faceBeautyEnable", Bool(false)),
      Member("faceBeautySetting", FaceBeautySetting()),
      Member("watermarkSetting", WatermarkSetting()),
      Member("pictureStreamingFile", Null),
      Member("pictureStreamingEnable", Bool(false)),
      Member("torchEnable", Bool(false)),
      Member("captureFrame", Bool(false)),
      Member("previewMirrorEnable", Bool(false)),
      Member("encodingMirrorEnable", Bool(false)),
      Member("audioMixFile", Obj([Member("filePath", Null), Member("loop", Bool(false))])),
      Member("playMixAudio", Bool(false)),
      Member("audioMixVolume", Obj([Member("micVolume", Abstract(HalfVolume)), Member("musicVolume", Abstract(HalfVolume))])),
      Member("playbackEnable", Bool(false)),
      Member("profile", Profile(isAndroid))
    ])
  }

  const PermissionKey := "androidPermissionGranted"
  const StateKey := "state"
  const StreamInfoKey := "streamInfo"
  const InputKey := "streamingConfigInput"
  const ErrorKey := "streamingConfigError"
  const ConfigKey := "streamingConfig"

  /** The component's `state` when the screen is created. */
  function InitialState(isAndroid: bool): Value
  {
    Obj([
      Member(PermissionKey, Bool(false)),
      Member(StateKey, Null),
      Member(StreamInfoKey, Null),
      Member(InputKey, Str("")),
      Member(ErrorKey, Null),
      Member(ConfigKey, DefaultStreamingConfig(isAndroid))
    ])
  }

  /** The key paths bound by the inputs for the stream switches and the camera (demo/App.js:238-241). */
  function ControlPaths(): seq<seq<string>>
  {
    [
      [ConfigKey, "started"],
      [ConfigKey, "muted"],
      [ConfigKey, "focus"],
      [ConfigKey, "camera"]
    ]
  }

  /** The key path bound by the codec input (demo/App.js:243). */
  function CodecPaths(): seq<seq<string>>
  {
    [[ConfigKey, "profile", "avCodecType"]]
  }

  /** The key paths bound by the inputs for the camera settings (demo/App.js:245-247). */
  function CameraPaths(): seq<seq<string>>
  {
    [
      [ConfigKey, "profile", "cameraStreamingSetting", "resolution"],
      [ConfigKey, "profile", "cameraStreamingSetting", "focusMode"],
      [ConfigKey, "profile", "cameraStreamingSetting", "videoOrientation"]
    ]
  }

  /** The key paths bound by the inputs for the microphone settings (demo/App.js:249-251). */
  function MicrophonePaths(): seq<seq<string>>
  {
    [
      [ConfigKey, "profile", "microphoneSteamingSetting", "sampleRate"],
      [ConfigKey, "profile", "microphoneSteamingSetting", "channel"],
      [ConfigKey, "profile", "microphoneSteamingSetting", "isAecEnable"]
    ]
  }

  /** The key paths bound by the inputs for the video encoder (demo/App.js:253-254). */
  function EncoderPaths(): seq<seq<string>>
  {
    [
      [ConfigKey, "profile", "videoStreamingSetting", "encodeOrientation"],
      [ConfigKey, "profile", "videoStreamingSetting", "h264Profile"]
    ]
  }

  /** The key paths bound by the inputs for the transport and the bitrate (demo/App.js:259-262). */
  function BitratePaths(): seq<seq<string>>
  {
    [
      [ConfigKey, "profile", "quicEnable"],
      [ConfigKey, "profile", "bitrateAdjustMode"],
      [ConfigKey, "profile", "encoderRCMode"]
    ]
  }

  /** The key paths bound by the inputs for face beauty, the watermark and picture streaming (demo/App.js:265-274). */
  function PicturePaths(): seq<seq<string>>
  {
    [
      [ConfigKey, "faceBeautyEnable"],
      [ConfigKey, "watermarkSetting", "src"],
      [ConfigKey, "pictureStreamingEnable"],
      [ConfigKey, "pictureStreamingFile"]
    ]
  }

  /** The key paths bound by the inputs for the torch, frame capture and mirroring (demo/App.js:276-279). */
  function DevicePaths(): seq<seq<string>>
  {
    [
      [ConfigKey, "torchEnable"],
      [ConfigKey, "captureFrame"],
      [ConfigKey, "previewMirrorEnable"],
      [ConfigKey, "encodingMirrorEnable"]
    ]
  }

  /** The key paths bound by the inputs for audio mixing and playback (demo/App.js:281-286). */
  function AudioMixPaths(): seq<seq<string>>
  {
    [
      [ConfigKey, "playMixAudio"],
      [ConfigKey, "audioMixFile", "filePath"],
      [ConfigKey, "audioMixFile", "loop"],
      [ConfigKey, "playbackEnable"]
    ]
  }

  /**
   * The segments of every key path handed to `bindStateOfPath` by the form, in
   * order: 28 paths, each naming a setting below `streamingConfig`.
   */
  function BoundPaths(): (r: seq<seq<string>>)
    ensures |r| == 28
    ensures forall i :: 0 <= i < |r| ==> |r[i]| >= 2 && r[i][0] == ConfigKey
  {
    ControlPaths() + CodecPaths() + CameraPaths() + MicrophonePaths() + EncoderPaths() + BitratePaths() + PicturePaths() + DevicePaths() + AudioMixPaths()
  }

  /** Reading `path` from `root` neither throws nor ends on `undefined` or a nested object. */
  predicate ResolvesToLeaf(root: Value, path: seq<string>)
  {
    match Read(root, path)
    case None => false
    case Some(v) => !v.Undefined? && !v.Obj?
  }

  /** The property names of the default `streamingConfig`, in the order they are written. */
  function ConfigKeys(): seq<string>
  {
    ["rtmpURL", "camera", "muted", "zoom", "focus", "started", "faceBeautyEnable", "faceBeautySetting",
     "watermarkSetting", "pictureStreamingFile", "pictureStreamingEnable", "torchEnable", "captureFrame",
     "previewMirrorEnable", "encodingMirrorEnable", "audioMixFile", "playMixAudio", "audioMixVolume",
     "playbackEnable", "profile"]
  }

  /** The property names of the default `profile`, in the order they are written. */
  function ProfileKeys(): seq<string>
  {
    ["videoStreamingSetting", "audioStreamingSetting", "encodingSize", "avCodecType",
     "cameraStreamingSetting", "microphoneSteamingSetting", "quicEnable", "bitrateAdjustMode",
     "adaptiveBitrateRange", "encoderRCMode", "streamInfoUpdateInterval"]
  }

  /** The default configuration is a plain object with the listed, pairwise distinct names. */
  lemma ConfigKeysDistinct(isAndroid: bool)
    ensures Keys(DefaultStreamingConfig(isAndroid).members) == ConfigKeys()
    ensures DistinctKeys(DefaultStreamingConfig(isAndroid).members)
  {
    var ks := ConfigKeys();
    assert forall i, j :: 0 <= i < j < |ks| ==> ks[i] != ks[j];
  }

  /** The default `profile` is a plain object with the listed, pairwise distinct names. */
  lemma ProfileKeysDistinct(isAndroid: bool)
    ensures Keys(Profile(isAndroid).members) == ProfileKeys()
    ensures DistinctKeys(Profile(isAndroid).members)
  {
    var ks := ProfileKeys();
    assert forall i, j :: 0 <= i < j < |ks| ==> ks[i] != ks[j];
  }

  /** The nested settings of the default configuration are well formed. */
  lemma FaceBeautyWellFormed()
    ensures WellFormed(FaceBeautySetting())
  {
  }

  lemma WatermarkWellFormed()
    ensures WellFormed(WatermarkSetting())
  {
    var w := WatermarkSetting().members;
    assert WellFormed(w[2].value) && WellFormed(w[3].value);
  }

  lemma VideoWellFormed(isAndroid: bool)
    ensures WellFormed(VideoStreamingSetting(isAndroid))
  {
    var v := VideoStreamingSetting(isAndroid).members;
    assert WellFormed(v[5].value);
  }

  lemma AudioWellFormed()
    ensures WellFormed(AudioStreamingSetting())
  {
  }

  lemma CameraWellFormed(isAndroid: bool)
    ensures WellFormed(CameraStreamingSetting(isAndroid))
  {
  }

  lemma MicrophoneWellFormed()
    ensures WellFormed(MicrophoneSteamingSetting())
  {
  }

  /** The default profile is well formed: no name repeats at any depth. */
  lemma ProfileWellFormed(isAndroid: bool)
    ensures WellFormed(Profile(isAndroid))
  {
    ProfileKeysDistinct(isAndroid);
    VideoWellFormed(isAndroid);
    AudioWellFormed();
    CameraWellFormed(isAndroid);
    MicrophoneWellFormed();
    var ms := Profile(isAndroid).members;
    assert WellFormed(ms[9].value);
    assert forall i :: 0 <= i < |ms| ==> WellFormed(ms[i].value);
  }

  /** The first ten members of the default configuration hold well-formed values. */
  lemma ConfigHeadWellFormed(isAndroid: bool)
    ensures forall i :: 0 <= i < 10 ==> WellFormed(DefaultStreamingConfig(isAndroid).members[i].value)
  {
    FaceBeautyWellFormed();
    WatermarkWellFormed();
  }

  /** The last ten members of the default configuration hold well-formed values. */
  lemma ConfigTailWellFormed(isAndroid: bool)
    ensures forall i :: 10 <= i < 20 ==> WellFormed(DefaultStreamingConfig(isAndroid).members[i].value)
  {
    ProfileWellFormed(isAndroid);
    var ms := DefaultStreamingConfig(isAndroid).members;
    assert WellFormed(ms[15].value) && WellFormed(ms[17].value);
  }

  /** The default configuration is well formed: no name repeats at any depth. */
  lemma DefaultConfigWellFormed(isAndroid: bool)
    ensures WellFormed(DefaultStreamingConfig(isAndroid))
  {
    ConfigKeysDistinct(isAndroid);
    ConfigHeadWellFormed(isAndroid);
    ConfigTailWellFormed(isAndroid);
  }

  /** The initial state is a real JavaScript object: no name repeats at any depth. */
  lemma InitialStateWellFormed(isAndroid: bool)
    ensures WellFormed(InitialState(isAndroid))
  {
    DefaultConfigWellFormed(isAndroid);
    var ss := InitialState(isAndroid).members;
    assert forall i :: 0 <= i < |ss| ==> WellFormed(ss[i].value);
    assert DistinctKeys(ss);
  }

  /** `streamingConfig` of the initial state is the default configuration. */
  lemma ConfigOfInitialState(isAndroid: bool, rest: seq<string>)
    ensures Read(InitialState(isAndroid), [ConfigKey] + rest) == Read(DefaultStreamingConfig(isAndroid), rest)
  {
    var ms := InitialState(isAndroid).members;
    assert ms[5] == Member(ConfigKey, DefaultStreamingConfig(isAndroid));
    assert forall j :: 0 <= j < 5 ==> ms[j].key != ConfigKey;
    LookupFirst(ms, 5, ConfigKey);
    ReadObj(ms, ConfigKey, rest);
  }

  /** `streamingConfig.<k>.<rest>` reads `<rest>` from the default configuration's member named `k`. */
  lemma ReadConfigMember(isAndroid: bool, i: nat, rest: seq<string>)
    requires i < |ConfigKeys()|
    ensures Read(InitialState(isAndroid), [ConfigKey, ConfigKeys()[i]] + rest)
         == Read(DefaultStreamingConfig(isAndroid).members[i].value, rest)
  {
    var cfg := DefaultStreamingConfig(isAndroid);
    var k := ConfigKeys()[i];
    ConfigKeysDistinct(isAndroid);
    ReadMember(cfg.members, i, rest);
    assert [ConfigKey, k] + rest == [ConfigKey] + ([k] + rest);
    ConfigOfInitialState(isAndroid, [k] + rest);
  }

  /** `streamingConfig.profile.<k>.<rest>` reads `<rest>` from the default profile's member named `k`. */
  lemma ReadProfileMember(isAndroid: bool, i: nat, rest: seq<string>)
    requires i < |ProfileKeys()|
    ensures Read(InitialState(isAndroid), [ConfigKey, "profile", ProfileKeys()[i]] + rest)
         == Read(Profile(isAndroid).members[i].value, rest)
  {
    var k := ProfileKeys()[i];
    var ps := Profile(isAndroid).members;
    ProfileKeysDistinct(isAndroid);
    ReadMember(ps, i, rest);
    assert [ConfigKey, "profile", k] + rest == [ConfigKey, ConfigKeys()[19]] + ([k] + rest);
    ReadConfigMember(isAndroid, 19, [k] + rest);
    assert DefaultStreamingConfig(isAndroid).members[19].value == Profile(isAndroid);
  }

  /** Every member of the default configuration but the five nested objects is a leaf below `streamingConfig`. */
  lemma ConfigLeaf(isAndroid: bool, j: nat)
    requires j < |ConfigKeys()| && j !in {7, 8, 15, 17, 19}
    ensures ResolvesToLeaf(InitialState(isAndroid), [ConfigKey, ConfigKeys()[j]])
  {
    var ms := DefaultStreamingConfig(isAndroid).members;
    assert !ms[j].value.Obj? && !ms[j].value.Undefined?;
    ReadConfigMember(isAndroid, j, []);
    assert [ConfigKey, ConfigKeys()[j]] + [] == [ConfigKey, ConfigKeys()[j]];
  }

  /** Every member of the default profile but the five nested objects is a leaf below `streamingConfig.profile`. */
  lemma ProfileLeaf(isAndroid: bool, j: nat)
    requires j < |ProfileKeys()| && j !in {0, 1, 4, 5, 8}
    ensures ResolvesToLeaf(InitialState(isAndroid), [ConfigKey, "profile", ProfileKeys()[j]])
  {
    var ms := Profile(isAndroid).members;
    assert !ms[j].value.Obj? && !ms[j].value.Undefined?;
    ReadProfileMember(isAndroid, j, []);
    assert [ConfigKey, "profile", ProfileKeys()[j]] + [] == [ConfigKey, "profile", ProfileKeys()[j]];
  }

  /**
   * The members of the nested profile object at position `j` whose values are
   * leaves are leaves below `streamingConfig.profile.<its name>`.
   */
  lemma SettingLeaf(isAndroid: bool, j: nat, setting: Value, t: nat)
    requires j < |ProfileKeys()| && setting == Profile(isAndroid).members[j].value
    requires setting.Obj? && DistinctKeys(setting.members) && t < |setting.members|
    requires !setting.members[t].value.Obj? && !setting.members[t].value.Undefined?
    ensures ResolvesToLeaf(InitialState(isAndroid), [ConfigKey, "profile", ProfileKeys()[j], setting.members[t].key])
  {
    var k := setting.members[t].key;
    ReadMember(setting.members, t, []);
    assert [k] + [] == [k];
    ReadProfileMember(isAndroid, j, [k]);
    assert [ConfigKey, "profile", ProfileKeys()[j]] + [k] == [ConfigKey, "profile", ProfileKeys()[j], k];
  }

  /** Each path bound by the inputs for the stream switches and the camera reads a leaf of the initial state. */
  lemma ControlPathsResolve(isAndroid: bool, i: nat)
    requires i < |ControlPaths()|
    ensures ResolvesToLeaf(InitialState(isAndroid), ControlPaths()[i])
  {
    var path := ControlPaths()[i];
    if i == 0 { assert path == [ConfigKey, ConfigKeys()[5]]; ConfigLeaf(isAndroid, 5); }
    else if i == 1 { assert path == [ConfigKey, ConfigKeys()[2]]; ConfigLeaf(isAndroid, 2); }
    else if i == 2 { assert path == [ConfigKey, ConfigKeys()[4]]; ConfigLeaf(isAndroid, 4); }
    else { assert path == [ConfigKey, ConfigKeys()[1]]; ConfigLeaf(isAndroid, 1); }
  }

  /** The path bound by the codec input reads a leaf of the initial state. */
  lemma CodecPathsResolve(isAndroid: bool, i: nat)
    requires i < |CodecPaths()|
    ensures ResolvesToLeaf(InitialState(isAndroid), CodecPaths()[i])
  {
    assert CodecPaths()[i] == [ConfigKey, "profile", ProfileKeys()[3]];
    ProfileLeaf(isAndroid, 3);
  }

  /** Each path bound by the inputs for the camera settings reads a leaf of the initial state. */
  lemma CameraPathsResolve(isAndroid: bool, i: nat)
    requires i < |CameraPaths()|
    ensures ResolvesToLeaf(InitialState(isAndroid), CameraPaths()[i])
  {
    var setting := CameraStreamingSetting(isAndroid);
    assert Profile(isAndroid).members[4].value == setting;
    assert DistinctKeys(setting.members);
    assert CameraPaths()[i] == [ConfigKey, "profile", ProfileKeys()[4], setting.members[i].key];
    SettingLeaf(isAndroid, 4, setting, i);
  }

  /** Each path bound by the inputs for the microphone settings reads a leaf of the initial state. */
  lemma MicrophonePathsResolve(isAndroid: bool, i: nat)
    requires i < |MicrophonePaths()|
    ensures ResolvesToLeaf(InitialState(isAndroid), MicrophonePaths()[i])
  {
    var setting := MicrophoneSteamingSetting();
    assert Profile(isAndroid).members[5].value == setting;
    assert DistinctKeys(setting.members);
    assert MicrophonePaths()[i] == [ConfigKey, "profile", ProfileKeys()[5], setting.members[i].key];
    SettingLeaf(isAndroid, 5, setting, i);
  }

  /** Each path bound by the inputs for the video encoder reads a leaf of the initial state. */
  lemma EncoderPathsResolve(isAndroid: bool, i: nat)
    requires i < |EncoderPaths()|
    ensures ResolvesToLeaf(InitialState(isAndroid), EncoderPaths()[i])
  {
    var setting := VideoStreamingSetting(isAndroid);
    assert Profile(isAndroid).members[0].value == setting;
    assert DistinctKeys(setting.members);
    assert EncoderPaths()[i] == [ConfigKey, "profile", ProfileKeys()[0], setting.members[i + 3].key];
    SettingLeaf(isAndroid, 0, setting, i + 3);
  }

  /** Each path bound by the inputs for the transport and the bitrate reads a leaf of the initial state. */
  lemma BitratePathsResolve(isAndroid: bool, i: nat)
    requires i < |BitratePaths()|
    ensures ResolvesToLeaf(InitialState(isAndroid), BitratePaths()[i])
  {
    var path := BitratePaths()[i];
    if i == 0 { assert path == [ConfigKey, "profile", ProfileKeys()[6]]; ProfileLeaf(isAndroid, 6); }
    else if i == 1 { assert path == [ConfigKey, "profile", ProfileKeys()[7]]; ProfileLeaf(isAndroid, 7); }
    else { assert path == [ConfigKey, "profile", ProfileKeys()[9]]; ProfileLeaf(isAndroid, 9); }
  }

  /** Each path bound by the inputs for face beauty, the watermark and picture streaming reads a leaf of the initial state. */
  lemma PicturePathsResolve(isAndroid: bool, i: nat)
    requires i < |PicturePaths()|
    ensures ResolvesToLeaf(InitialState(isAndroid), PicturePaths()[i])
  {
    var path := PicturePaths()[i];
    if i == 0 { assert path == [ConfigKey, ConfigKeys()[6]]; ConfigLeaf(isAndroid, 6); }
    else if i == 1 {
      var w := WatermarkSetting();
      assert DefaultStreamingConfig(isAndroid).members[8].value == w;
      assert path == [ConfigKey, ConfigKeys()[8]] + [w.members[0].key];
      assert DistinctKeys(w.members);
      ReadMember(w.members, 0, []);
      assert [w.members[0].key] + [] == [w.members[0].key];
      ReadConfigMember(isAndroid, 8, [w.members[0].key]);
    }
    else if i == 2 { assert path == [ConfigKey, ConfigKeys()[10]]; ConfigLeaf(isAndroid, 10); }
    else { assert path == [ConfigKey, ConfigKeys()[9]]; ConfigLeaf(isAndroid, 9); }
  }

  /** Each path bound by the inputs for the torch, frame capture and mirroring reads a leaf of the initial state. */
  lemma DevicePathsResolve(isAndroid: bool, i: nat)
    requires i < |DevicePaths()|
    ensures ResolvesToLeaf(InitialState(isAndroid), DevicePaths()[i])
  {
    assert DevicePaths()[i] == [ConfigKey, ConfigKeys()[11 + i]];
    ConfigLeaf(isAndroid, 11 + i);
  }

  /** Each path bound by the inputs for audio mixing and playback reads a leaf of the initial state. */
  lemma AudioMixPathsResolve(isAndroid: bool, i: nat)
    requires i < |AudioMixPaths()|
    ensures ResolvesToLeaf(InitialState(isAndroid), AudioMixPaths()[i])
  {
    var path := AudioMixPaths()[i];
    if i == 0 { assert path == [ConfigKey, ConfigKeys()[16]]; ConfigLeaf(isAndroid, 16); }
    else if i == 3 { assert path == [ConfigKey, ConfigKeys()[18]]; ConfigLeaf(isAndroid, 18); }
    else {
      var m := Obj([Member("filePath", Null), Member("loop", Bool(false))]);
      var t := i - 1;
      assert DefaultStreamingConfig(isAndroid).members[15].value == m;
      assert path == [ConfigKey, ConfigKeys()[15]] + [m.members[t].key];
      ReadMember(m.members, t, []);
      assert [m.members[t].key] + [] == [m.members[t].key];
      ReadConfigMember(isAndroid, 15, [m.members[t].key]);
    }
  }

  /**
   * Every key path of the form reads a leaf of the initial state on either
   * platform: no input starts out unbound.
   */
  lemma BoundPathsResolve(isAndroid: bool, i: nat)
    requires i < |BoundPaths()|
    ensures ResolvesToLeaf(InitialState(isAndroid), BoundPaths()[i])
  {
    if i < 4 { ControlPathsResolve(isAndroid, i); assert BoundPaths()[i] == ControlPaths()[i]; }
    else if i < 5 { CodecPathsResolve(isAndroid, i - 4); assert BoundPaths()[i] == CodecPaths()[i - 4]; }
    else if i < 8 { CameraPathsResolve(isAndroid, i - 5); assert BoundPaths()[i] == CameraPaths()[i - 5]; }
    else if i < 11 { MicrophonePathsResolve(isAndroid, i - 8); assert BoundPaths()[i] == MicrophonePaths()[i - 8]; }
    else if i < 13 { EncoderPathsResolve(isAndroid, i - 11); assert BoundPaths()[i] == EncoderPaths()[i - 11]; }
    else if i < 16 { BitratePathsResolve(isAndroid, i - 13); assert BoundPaths()[i] == BitratePaths()[i - 13]; }
    else if i < 20 { PicturePathsResolve(isAndroid, i - 16); assert BoundPaths()[i] == PicturePaths()[i - 16]; }
    else if i < 24 { DevicePathsResolve(isAndroid, i - 20); assert BoundPaths()[i] == DevicePaths()[i - 20]; }
    else { AudioMixPathsResolve(isAndroid, i - 24); assert BoundPaths()[i] == AudioMixPaths()[i - 24]; }
  }
}

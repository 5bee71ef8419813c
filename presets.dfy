/**
 * The twenty built-in System templates, in the order they are handed to
 * the store; the counter that numbers them supplies their sort order.
 */
module Presets {
  import opened Wrappers
  import opened Models

  /** What a preset fixes; its id, timestamps and sort order are filled in when it is built. */
  datatype Preset = Preset(
    name: string,
    description: string,
    commandArgs: string,
    category: string,
    supportedInputFormats: seq<string>,
    outputExtension: string,
    requiredEncoder: Option<string>)

  /**
   * The presets' names, in catalogue order. They are listed apart from the
   * rest of each preset so that facts about names need not unfold the
   * descriptions and command lines.
   */
  const PresetNames: seq<string> := [
    "转换为 MP4 (H.264)",
    "转换为 MP4 (H.265/HEVC)",
    "转换为 WebM (VP9)",
    "提取音频为 MP3",
    "提取音频为 AAC",
    "提取音频为 FLAC",
    "压缩视频 (高质量)",
    "压缩视频 (中等质量)",
    "压缩视频 (小体积)",
    "调整为 1080p",
    "调整为 720p",
    "调整为 480p",
    "视频转 GIF",
    "仅复制流 (无转码)",
    "NVENC H.264 (NVIDIA GPU)",
    "NVENC H.265 (NVIDIA GPU)",
    "QSV H.264 (Intel GPU)",
    "QSV H.265 (Intel GPU)",
    "AMF H.264 (AMD GPU)",
    "AMF H.265 (AMD GPU)"
  ]

  const Catalogue: seq<Preset> := [
    Preset(PresetNames[0],
           "将视频转换为 MP4 格式，使用 H.264 编码，兼容性最佳",
           "-i \"{input}\" -c:v libx264 -preset medium -crf 23 -c:a aac -b:a 128k \"{output}\"",
           "视频转码", ["avi", "mkv", "mov", "wmv", "flv", "webm"], "mp4", None),
    Preset(PresetNames[1],
           "将视频转换为 MP4 格式，使用 H.265 编码，文件更小",
           "-i \"{input}\" -c:v libx265 -preset medium -crf 28 -c:a aac -b:a 128k \"{output}\"",
           "视频转码", [], "mp4", None),
    Preset(PresetNames[2],
           "将视频转换为 WebM 格式，适合网页使用",
           "-i \"{input}\" -c:v libvpx-vp9 -crf 30 -b:v 0 -c:a libopus -b:a 128k \"{output}\"",
           "视频转码", [], "webm", None),
    Preset(PresetNames[3],
           "从视频中提取音频并转换为 MP3 格式",
           "-i \"{input}\" -vn -c:a libmp3lame -b:a 192k \"{output}\"",
           "音频提取", ["mp4", "avi", "mkv", "mov", "webm"], "mp3", None),
    Preset(PresetNames[4],
           "从视频中提取音频并转换为 AAC 格式，音质更好",
           "-i \"{input}\" -vn -c:a aac -b:a 256k \"{output}\"",
           "音频提取", ["mp4", "avi", "mkv", "mov", "webm"], "m4a", None),
    Preset(PresetNames[5],
           "从视频中提取音频并转换为无损 FLAC 格式",
           "-i \"{input}\" -vn -c:a flac \"{output}\"",
           "音频提取", ["mp4", "avi", "mkv", "mov", "webm"], "flac", None),
    Preset(PresetNames[6],
           "压缩视频文件，保持较高画质 (CRF 18)",
           "-i \"{input}\" -c:v libx264 -preset slow -crf 18 -c:a aac -b:a 192k \"{output}\"",
           "视频压缩", [], "mp4", None),
    Preset(PresetNames[7],
           "压缩视频文件，平衡画质和文件大小 (CRF 23)",
           "-i \"{input}\" -c:v libx264 -preset medium -crf 23 -c:a aac -b:a 128k \"{output}\"",
           "视频压缩", [], "mp4", None),
    Preset(PresetNames[8],
           "大幅压缩视频文件，牺牲部分画质 (CRF 28)",
           "-i \"{input}\" -c:v libx264 -preset fast -crf 28 -c:a aac -b:a 96k \"{output}\"",
           "视频压缩", [], "mp4", None),
    Preset(PresetNames[9],
           "将视频分辨率调整为 1920x1080 (1080p)",
           "-i \"{input}\" -vf \"scale=1920:1080:force_original_aspect_ratio=decrease,pad=1920:1080:(ow-iw)/2:(oh-ih)/2\" -c:v libx264 -crf 23 -c:a aac \"{output}\"",
           "分辨率调整", [], "mp4", None),
    Preset(PresetNames[10],
           "将视频分辨率调整为 1280x720 (720p)",
           "-i \"{input}\" -vf \"scale=1280:720:force_original_aspect_ratio=decrease,pad=1280:720:(ow-iw)/2:(oh-ih)/2\" -c:v libx264 -crf 23 -c:a aac \"{output}\"",
           "分辨率调整", [], "mp4", None),
    Preset(PresetNames[11],
           "将视频分辨率调整为 854x480 (480p)",
           "-i \"{input}\" -vf \"scale=854:480:force_original_aspect_ratio=decrease,pad=854:480:(ow-iw)/2:(oh-ih)/2\" -c:v libx264 -crf 23 -c:a aac \"{output}\"",
           "分辨率调整", [], "mp4", None),
    Preset(PresetNames[12],
           "将视频转换为 GIF 动图",
           "-i \"{input}\" -vf \"fps=10,scale=480:-1:flags=lanczos,split[s0][s1];[s0]palettegen[p];[s1][p]paletteuse\" -loop 0 \"{output}\"",
           "特殊处理", ["mp4", "avi", "mkv", "mov", "webm"], "gif", None),
    Preset(PresetNames[13],
           "快速复制视频和音频流到新容器，不重新编码",
           "-i \"{input}\" -c copy \"{output}\"",
           "特殊处理", [], "mp4", None),
    Preset(PresetNames[14],
           "使用 NVIDIA GPU 硬件加速编码 H.264",
           "-i \"{input}\" -c:v h264_nvenc -preset p4 -cq 23 -c:a aac -b:a 128k \"{output}\"",
           "硬件加速", [], "mp4", Some("h264_nvenc")),
    Preset(PresetNames[15],
           "使用 NVIDIA GPU 硬件加速编码 H.265/HEVC",
           "-i \"{input}\" -c:v hevc_nvenc -preset p4 -cq 28 -c:a aac -b:a 128k \"{output}\"",
           "硬件加速", [], "mp4", Some("hevc_nvenc")),
    Preset(PresetNames[16],
           "使用 Intel GPU 硬件加速编码 H.264",
           "-i \"{input}\" -c:v h264_qsv -preset medium -global_quality 23 -c:a aac -b:a 128k \"{output}\"",
           "硬件加速", [], "mp4", Some("h264_qsv")),
    Preset(PresetNames[17],
           "使用 Intel GPU 硬件加速编码 H.265/HEVC",
           "-i \"{input}\" -c:v hevc_qsv -preset medium -global_quality 28 -c:a aac -b:a 128k \"{output}\"",
           "硬件加速", [], "mp4", Some("hevc_qsv")),
    Preset(PresetNames[18],
           "使用 AMD GPU 硬件加速编码 H.264",
           "-i \"{input}\" -c:v h264_amf -quality balanced -rc cqp -qp_i 23 -qp_p 23 -c:a aac -b:a 128k \"{output}\"",
           "硬件加速", [], "mp4", Some("h264_amf")),
    Preset(PresetNames[19],
           "使用 AMD GPU 硬件加速编码 H.265/HEVC",
           "-i \"{input}\" -c:v hevc_amf -quality balanced -rc cqp -qp_i 28 -qp_p 28 -c:a aac -b:a 128k \"{output}\"",
           "硬件加速", [], "mp4", Some("hevc_amf"))
  ]

  const PresetCount := 20

  /**
   * A preset as a stored template: System, flagged for acceleration exactly
   * when it names an encoder, with the clock readings of its two initialisers.
   */
  function Build(p: Preset, id: nat, sortOrder: int, stamp: Stamp): (r: CommandTemplate)
    ensures r.templateType == System && r.id == id && r.sortOrder == sortOrder
    ensures r.requiresHardwareAcceleration <==> p.requiredEncoder.Some?
  {
    CommandTemplate(id, p.name, p.description, p.commandArgs, System, p.category,
                    p.supportedInputFormats, p.outputExtension, p.requiredEncoder.Some?,
                    p.requiredEncoder, stamp.created, stamp.updated, sortOrder)
  }

  /** No two presets in `presets` share a name. */
  predicate NamesDistinct(presets: seq<Preset>) {
    forall i, j :: 0 <= i < j < |presets| ==> presets[i].name != presets[j].name
  }

  /**
   * `GetSystemTemplates`: the presets as stored templates, with the ids the
   * store hands out from `firstId` on; the `i`-th preset's two initialisers
   * read the clock as `stamps[i]`.
   */
  function SystemTemplates(presets: seq<Preset>, firstId: nat, stamps: seq<Stamp>): (r: seq<CommandTemplate>)
    requires |stamps| == |presets|
    ensures |r| == |presets|
    ensures forall i :: 0 <= i < |r| ==>
      && r[i].id == firstId + i
      && r[i].sortOrder == i
      && r[i].templateType == System
      && r[i].createdAt == stamps[i].created && r[i].updatedAt == stamps[i].updated
      && r[i].name == presets[i].name
      && r[i].requiredEncoder == presets[i].requiredEncoder
      && (r[i].requiresHardwareAcceleration <==> presets[i].requiredEncoder.Some?)
  {
    seq(|presets|, (i: int) requires 0 <= i < |presets| => Build(presets[i], firstId + i, i, stamps[i]))
  }

  /** Presets with distinct names build templates with distinct names. */
  lemma BuiltNamesDistinct(presets: seq<Preset>, firstId: nat, stamps: seq<Stamp>)
    requires NamesDistinct(presets) && |stamps| == |presets|
    ensures var r := SystemTemplates(presets, firstId, stamps);
      forall i, j :: 0 <= i < j < |r| ==> r[i].name != r[j].name
  {
  }

  /** The listed names are pairwise different. */
  lemma ListedNamesDistinct()
    ensures forall i, j :: 0 <= i < j < |PresetNames| ==> PresetNames[i] != PresetNames[j]
  {
  }

  /** The first ten presets carry the names listed for them. */
  lemma LowerNames()
    ensures |Catalogue| == |PresetNames| == PresetCount
    ensures forall i :: 0 <= i < 10 ==> Catalogue[i].name == PresetNames[i]
  {
  }

  /** The last ten presets carry the names listed for them. */
  lemma UpperNames()
    ensures |Catalogue| == |PresetNames| == PresetCount
    ensures forall i :: 10 <= i < PresetCount ==> Catalogue[i].name == PresetNames[i]
  {
  }

  /** There are twenty presets and no two share a name, so they never clash with each other on the unique name index. */
  lemma PresetNamesDistinct()
    ensures |Catalogue| == PresetCount
    ensures NamesDistinct(Catalogue)
  {
    ListedNamesDistinct();
    LowerNames();
    UpperNames();
    assert forall i :: 0 <= i < |Catalogue| ==> Catalogue[i].name == PresetNames[i];
  }

  /** Exactly the last six presets need an accelerator. */
  lemma HardwarePresets()
    ensures forall i :: 0 <= i < |Catalogue| ==> (Catalogue[i].requiredEncoder.Some? <==> 14 <= i)
  {
  }
}

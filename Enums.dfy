/** The enumerations of the server's API layer (server/api/enums.go): membership tests
    over the constants, and the system tag table keyed by tag type. Go's named string
    types are plain strings here, since any string converts to them. */
module Enums {
  import opened Wrappers
  import opened Seqs

  // ---------------------------------------------------------------- attachment and entity types

  const AttachmentImage := "image"
  const AttachmentVideo := "video"
  const AttachmentFile := "file"

  function IsValidAttachmentType(t: string): (b: bool)
    ensures b <==> t in {AttachmentImage, AttachmentVideo, AttachmentFile}
  {
    match t
    case "image" => true
    case "video" => true
    case "file" => true
    case _ => false
  }

  predicate IsImage(t: string) { t == AttachmentImage }
  predicate IsVideo(t: string) { t == AttachmentVideo }

  /** No attachment type is both an image and a video, and both are valid types. */
  lemma ImageVideoExclusive(t: string)
    ensures !(IsImage(t) && IsVideo(t))
    ensures IsImage(t) || IsVideo(t) ==> IsValidAttachmentType(t)
  {
  }

  const EntityTypes: seq<string> :=
    ["clothing_item", "outfit", "user", "maintenance", "wear_record", "purchase"]

  function IsValidEntityType(t: string): (b: bool)
    ensures b <==> t in EntityTypes
  {
    match t
    case "clothing_item" => true
    case "outfit" => true
    case "user" => true
    case "maintenance" => true
    case "wear_record" => true
    case "purchase" => true
    case _ => false
  }

  // ---------------------------------------------------------------- status, weather, gender, rating

  function IsValidClothingStatus(s: string): (b: bool)
    ensures b <==> s in {"active", "inactive", "donated", "sold", "lost", "damaged"}
  {
    match s
    case "active" => true
    case "inactive" => true
    case "donated" => true
    case "sold" => true
    case "lost" => true
    case "damaged" => true
    case _ => false
  }

  const WeatherTypes: seq<string> := ["sunny", "rainy", "cloudy", "snowy", "foggy", "windy"]

  function IsValidWeatherType(w: string): (b: bool)
    ensures b <==> w in WeatherTypes
  {
    match w
    case "sunny" => true
    case "rainy" => true
    case "cloudy" => true
    case "snowy" => true
    case "foggy" => true
    case "windy" => true
    case _ => false
  }

  function IsValidGender(g: string): (b: bool)
    ensures b <==> g in {"male", "female", "other"}
  {
    match g
    case "male" => true
    case "female" => true
    case "other" => true
    case _ => false
  }

  const OutfitRatingPoor := 1
  const OutfitRatingExcellent := 5

  function IsValidOutfitRating(r: int): (b: bool)
    ensures b <==> r in {1, 2, 3, 4, 5}
  {
    OutfitRatingPoor <= r <= OutfitRatingExcellent
  }

  // ---------------------------------------------------------------- list-scanning validators

  /** The tag types this file knows: four, without color, material or brand. */
  const TagTypes: seq<string> := ["season", "occasion", "style", "custom"]

  function IsValidTagType(t: string): (b: bool)
    ensures b <==> t in {"season", "occasion", "style", "custom"}
  {
    Mem(TagTypes, t)
  }

  const MaintenanceTypes: seq<string> :=
    ["washing", "dry_cleaning", "repair", "polishing", "waterproof", "storage", "other"]

  function IsValidMaintenanceType(t: string): (b: bool)
    ensures b <==> t in {"washing", "dry_cleaning", "repair", "polishing", "waterproof", "storage", "other"}
  {
    Mem(MaintenanceTypes, t)
  }

  const ItemRoles: seq<string> :=
    ["main", "accent", "base", "outer", "inner", "bottom", "shoes", "accessory"]

  function IsValidItemRole(r: string): (b: bool)
    ensures b <==> r in {"main", "accent", "base", "outer", "inner", "bottom", "shoes", "accessory"}
  {
    Mem(ItemRoles, r)
  }

  // ---------------------------------------------------------------- system tags

  datatype SystemTag = SystemTag(id: nat, name: string, kind: string, description: string, icon: string)

  const SeasonTags: seq<SystemTag> := [
    SystemTag(1, "春季", "season", "适合春季穿着", ""),
    SystemTag(2, "夏季", "season", "适合夏季穿着", ""),
    SystemTag(3, "秋季", "season", "适合秋季穿着", ""),
    SystemTag(4, "冬季", "season", "适合冬季穿着", "")
  ]

  const OccasionTags: seq<SystemTag> := [
    SystemTag(5, "正式", "occasion", "正式场合", ""),
    SystemTag(6, "休闲", "occasion", "休闲场合", ""),
    SystemTag(7, "运动", "occasion", "运动健身", ""),
    SystemTag(8, "约会", "occasion", "约会场合", ""),
    SystemTag(9, "工作", "occasion", "工作场合", ""),
    SystemTag(10, "聚会", "occasion", "聚会场合", ""),
    SystemTag(11, "居家", "occasion", "居家休息", "")
  ]

  const StyleTags: seq<SystemTag> := [
    SystemTag(12, "简约", "style", "简约风格", ""),
    SystemTag(13, "甜美", "style", "甜美风格", ""),
    SystemTag(14, "酷帅", "style", "酷帅风格", ""),
    SystemTag(15, "优雅", "style", "优雅风格", ""),
    SystemTag(16, "复古", "style", "复古风格", ""),
    SystemTag(17, "街头", "style", "街头风格", ""),
    SystemTag(18, "文艺", "style", "文艺风格", "")
  ]

  /** `SystemTags`: season, occasion and style have lists; custom has none. */
  const SystemTags: map<string, seq<SystemTag>> :=
    map["season" := SeasonTags, "occasion" := OccasionTags, "style" := StyleTags]

  function GetSystemTagsByType(t: string): (r: seq<SystemTag>)
    ensures t in {"season", "occasion", "style"} ==> r == SystemTags[t]
    ensures t !in {"season", "occasion", "style"} ==> r == []
  {
    if t in SystemTags then SystemTags[t] else []
  }

  /** The first tag of `tags` named `name`, as the loop of `GetSystemTagByName` finds it. */
  function FindByName(tags: seq<SystemTag>, name: string): (r: Option<SystemTag>)
    ensures r.Some? ==> r.value in tags && r.value.name == name
    ensures r.None? ==> forall i :: 0 <= i < |tags| ==> tags[i].name != name
    ensures r.Some? ==> exists i :: 0 <= i < |tags| && tags[i] == r.value
                                    && forall j :: 0 <= j < i ==> tags[j].name != name
  {
    if tags == [] then None
    else if tags[0].name == name then Some(tags[0])
    else
      var r := FindByName(tags[1..], name);
      if r.Some? then
        var i :| 0 <= i < |tags[1..]| && tags[1..][i] == r.value
                 && forall j :: 0 <= j < i ==> tags[1..][j].name != name;
        assert tags[i + 1] == r.value;
        assert forall j :: 1 <= j < i + 1 ==> tags[j] == tags[1..][j - 1];
        r
      else r
  }

  function GetSystemTagByName(name: string, t: string): Option<SystemTag> {
    if t in SystemTags then FindByName(SystemTags[t], name) else None
  }

  /** `IsSystemTag`: some tag of that type has that name. */
  predicate IsSystemTag(name: string, t: string) {
    t in SystemTags && exists i :: 0 <= i < |SystemTags[t]| && SystemTags[t][i].name == name
  }

  /** IsSystemTag and GetSystemTagByName agree, and the tag found has the name asked for
      and belongs to the type asked for. */
  lemma SystemTagLookupAgrees(name: string, t: string)
    ensures IsSystemTag(name, t) <==> GetSystemTagByName(name, t).Some?
    ensures GetSystemTagByName(name, t).Some? ==>
      GetSystemTagByName(name, t).value.name == name && GetSystemTagByName(name, t).value in GetSystemTagsByType(t)
  {
  }

  /** Every tag is filed under its own type. */
  lemma SystemTagsFiledByType(t: string, i: nat)
    requires t in SystemTags && i < |SystemTags[t]|
    ensures SystemTags[t][i].kind == t
  {
  }
}

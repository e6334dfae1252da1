/** The attachment model (server/models/attachment.go): type tests, the URL choice and
    the two list-scanning validators. */
module AttachmentModel {
  import opened Seqs
  import Enums

  const TableName := "attachments"

  const AttachmentTypes: seq<string> := ["image", "video", "file"]

  const EntityTypes: seq<string> :=
    ["clothing_item", "outfit", "user", "maintenance", "wear_record", "purchase"]

  /** The fields of an attachment the model's methods read. */
  datatype Attachment = Attachment(attachmentType: string, filePath: string,
                                   publicURL: string, privateURL: string)

  predicate IsImage(a: Attachment) { a.attachmentType == "image" }
  predicate IsVideo(a: Attachment) { a.attachmentType == "video" }

  /** Never both, and each only for a valid attachment type. */
  lemma ImageVideoExclusive(a: Attachment)
    ensures !(IsImage(a) && IsVideo(a))
    ensures IsImage(a) || IsVideo(a) ==> IsValidAttachmentType(a.attachmentType)
  {
  }

  /** The most suitable URL: the public one, else the private one, else the file path. */
  function GetURL(a: Attachment): (r: string)
    ensures r in {a.publicURL, a.privateURL, a.filePath}
    ensures a.publicURL != "" ==> r == a.publicURL
    ensures a.publicURL == "" && a.privateURL != "" ==> r == a.privateURL
    ensures a.publicURL == "" && a.privateURL == "" ==> r == a.filePath
    ensures r == "" <==> a.publicURL == "" && a.privateURL == "" && a.filePath == ""
  {
    if a.publicURL != "" then a.publicURL
    else if a.privateURL != "" then a.privateURL
    else a.filePath
  }

  function IsValidAttachmentType(t: string): (b: bool)
    ensures b <==> t in {"image", "video", "file"}
  {
    Mem(AttachmentTypes, t)
  }

  function IsValidEntityType(t: string): (b: bool)
    ensures b <==> t in {"clothing_item", "outfit", "user", "maintenance", "wear_record", "purchase"}
  {
    Mem(EntityTypes, t)
  }

  /** The model's validators and the API enumerations accept the same strings. */
  lemma ValidatorsAgreeWithEnums(t: string)
    ensures IsValidAttachmentType(t) == Enums.IsValidAttachmentType(t)
    ensures IsValidEntityType(t) == Enums.IsValidEntityType(t)
  {
  }
}

/** The category model (server/models/clothing_category.go). */
module CategoryModel {
  import opened Wrappers

  const TableName := "clothing_categories"

  /** `ParentID *uint`: None is a nil pointer. */
  datatype ClothingCategory = ClothingCategory(id: nat, name: string, description: string,
                                               parentId: Option<nat>, icon: string,
                                               sortOrder: int, isActive: bool)

  function IsRootCategory(c: ClothingCategory): (b: bool)
    ensures b <==> c.parentId == None
  {
    c.parentId.None?
  }

  function HasParent(c: ClothingCategory): (b: bool)
    ensures b <==> exists p :: c.parentId == Some(p)
  {
    assert c.parentId.Some? ==> c.parentId == Some(c.parentId.value);
    c.parentId.Some?
  }

  /** A category is a root exactly when it has no parent. */
  lemma RootIffNoParent(c: ClothingCategory)
    ensures IsRootCategory(c) == !HasParent(c)
  {
  }
}

/** The tag model (server/models/clothing_tag.go): the seven tag types and the
    selection and order of `GetTagsByType`. */
module TagModel {
  import opened Wrappers
  import opened Seqs
  import Text
  import Enums
  import ControllerHelpers

  const TableName := "clothing_tags"

  const TagTypeSeason := "season"
  const TagTypeOccasion := "occasion"
  const TagTypeStyle := "style"
  const TagTypeColor := "color"
  const TagTypeMaterial := "material"
  const TagTypeBrand := "brand"
  const TagTypeCustom := "custom"

  const TagTypes: seq<string> :=
    [TagTypeSeason, TagTypeOccasion, TagTypeStyle, TagTypeColor, TagTypeMaterial, TagTypeBrand, TagTypeCustom]

  /** A row of `clothing_tags`; `userId` is None for a nil `UserID`. */
  datatype ClothingTag = ClothingTag(id: nat, name: string, kind: string, description: string,
                                     color: string, icon: string, isSystem: bool, isActive: bool,
                                     sortOrder: int, userId: Option<nat>)

  /** Exact, case-sensitive comparison against the seven constants. */
  function IsValidTagType(t: string): (b: bool)
    ensures b <==> t in {"season", "occasion", "style", "color", "material", "brand", "custom"}
  {
    Mem(TagTypes, t)
  }

  /** The three tag-type validators: the model's and the handlers' accept the same seven
      types, the API enumeration only four of them, so "color", "material" and "brand"
      pass the first two and fail the third. */
  lemma TagTypeValidators(t: string)
    ensures IsValidTagType(t) == ControllerHelpers.IsValidTagType(t)
    ensures Enums.IsValidTagType(t) ==> IsValidTagType(t)
    ensures IsValidTagType(t) && !Enums.IsValidTagType(t) <==> t in {"color", "material", "brand"}
    ensures !IsValidTagType("") && !IsValidTagType("Season")
  {
  }

  /** The `WHERE` of the query: an active tag of the type that is a system tag or, when a
      user is given, that user's own. A NULL `user_id` never equals the user. */
  predicate Selected(kind: string, userId: Option<nat>, t: ClothingTag) {
    t.kind == kind && t.isActive
    && (if userId.Some? then t.isSystem || t.userId == Some(userId.value) else t.isSystem)
  }

  /** `ORDER BY sort_order ASC, name ASC`. */
  predicate TagBefore(a: ClothingTag, b: ClothingTag) {
    a.sortOrder < b.sortOrder || (a.sortOrder == b.sortOrder && Text.StrCmp(a.name, b.name) <= 0)
  }

  function TagOrder(): (ClothingTag, ClothingTag) -> bool {
    (a: ClothingTag, b: ClothingTag) => TagBefore(a, b)
  }

  lemma TagOrderIsTotalPreorder()
    ensures IsTotalPreorder(TagOrder())
  {
    forall a: ClothingTag, b: ClothingTag ensures TagBefore(a, b) || TagBefore(b, a) {
      Text.StrCmpAntisymmetric(a.name, b.name);
    }
    forall a: ClothingTag, b: ClothingTag, c: ClothingTag | TagBefore(a, b) && TagBefore(b, c)
      ensures TagBefore(a, c)
    {
      if a.sortOrder == b.sortOrder == c.sortOrder {
        Text.StrCmpTransitive(a.name, b.name, c.name);
      }
    }
  }

  /** The query over the table `tags`. */
  function GetTagsByType(tags: seq<ClothingTag>, kind: string, userId: Option<nat>): (r: seq<ClothingTag>)
    ensures multiset(r) == multiset(Filter(t => Selected(kind, userId, t), tags))
  {
    SortWith(TagOrder(), Filter(t => Selected(kind, userId, t), tags))
  }

  /** Exactly the selected tags, each as often as in the table, ordered by sort order and
      then by name. */
  lemma {:induction false} GetTagsByTypeSpec(tags: seq<ClothingTag>, kind: string, userId: Option<nat>)
    ensures var r := GetTagsByType(tags, kind, userId);
      && (forall t :: t in r <==> t in tags && Selected(kind, userId, t))
      && (forall t :: Selected(kind, userId, t) ==> multiset(r)[t] == multiset(tags)[t])
      && (forall i, j :: 0 <= i < j < |r| ==> TagBefore(r[i], r[j]))
  {
    var p := t => Selected(kind, userId, t);
    var r := GetTagsByType(tags, kind, userId);
    forall t ensures t in r <==> t in tags && Selected(kind, userId, t) {
      FilterMultiset(p, tags, t);
      assert t in r <==> t in multiset(r);
      assert t in tags <==> t in multiset(tags);
    }
    forall t | Selected(kind, userId, t) ensures multiset(r)[t] == multiset(tags)[t] {
      FilterMultiset(p, tags, t);
    }
    TagOrderIsTotalPreorder();
    SortWithSorted(TagOrder(), Filter(p, tags));
  }

  /** Without a user only system tags come back; another user's tags never do. */
  lemma UserTagsStayPrivate(tags: seq<ClothingTag>, kind: string, userId: Option<nat>, t: ClothingTag)
    requires t in GetTagsByType(tags, kind, userId) && !t.isSystem
    ensures userId.Some? && t.userId == userId
  {
    GetTagsByTypeSpec(tags, kind, userId);
  }
}

/** The wear intensities of the wear-record model (server/models/wear_record.go). */
module WearRecordModel {
  import opened Seqs

  const WearIntensityLight := "light"
  const WearIntensityNormal := "normal"
  const WearIntensityHeavy := "heavy"

  const WearIntensities: seq<string> := [WearIntensityLight, WearIntensityNormal, WearIntensityHeavy]

  /** Exact, case-sensitive comparison against the three constants. */
  function IsValidWearIntensity(s: string): (b: bool)
    ensures b <==> s in {"light", "normal", "heavy"}
  {
    Mem(WearIntensities, s)
  }

  /** Scanning the constants in any order gives the same answer. */
  lemma IntensityOrderIrrelevant(order: seq<string>, s: string)
    requires multiset(order) == multiset(WearIntensities)
    ensures Mem(order, s) == IsValidWearIntensity(s)
  {
    MemIgnoresOrder(order, WearIntensities, s);
  }

  lemma EveryIntensityValid()
    ensures forall i :: 0 <= i < |WearIntensities| ==> IsValidWearIntensity(WearIntensities[i])
    ensures !IsValidWearIntensity("") && !IsValidWearIntensity("Light")
  {
  }
}

/** The maintenance-record model (server/models/maintenance_record.go): the suggested
    next maintenance date and the hooks that recompute it. Times are seconds. */
module MaintenanceModel {
  import opened Wrappers

  const SecondsPerDay := 24 * 60 * 60

  /** The interval in days for each maintenance type; unknown types get 90. */
  function IntervalDays(kind: string): (d: nat)
    ensures d in {30, 60, 90, 180, 365}
    ensures kind !in {"washing", "dry_cleaning", "repair", "polishing", "waterproof", "storage"} ==> d == 90
  {
    match kind
    case "washing" => 30
    case "dry_cleaning" => 90
    case "repair" => 180
    case "polishing" => 60
    case "waterproof" => 365
    case "storage" => 180
    case _ => 90
  }

  /** The suggested date after maintenance on `date`. */
  function NextDate(kind: string, date: int): (next: int)
    ensures next > date
    ensures (next - date) % SecondsPerDay == 0 && 30 <= (next - date) / SecondsPerDay <= 365
    ensures (next - date) / SecondsPerDay == IntervalDays(kind)
  {
    date + IntervalDays(kind) * SecondsPerDay
  }

  class MaintenanceRecord {
    var maintenanceType: string
    var maintenanceDate: int
    var nextMaintenanceDate: Option<int>

    constructor (kind: string, date: int, next: Option<int>)
      ensures maintenanceType == kind && maintenanceDate == date && nextMaintenanceDate == next
    {
      maintenanceType := kind;
      maintenanceDate := date;
      nextMaintenanceDate := next;
    }

    /** Sets the next date from the type and the date, whatever it was before. */
    method CalculateNextMaintenanceDate()
      modifies this
      ensures nextMaintenanceDate == Some(NextDate(maintenanceType, maintenanceDate))
      ensures maintenanceType == old(maintenanceType) && maintenanceDate == old(maintenanceDate)
    {
      nextMaintenanceDate := Some(maintenanceDate + IntervalDays(maintenanceType) * SecondsPerDay);
    }

    /** The create hook: a next date copied in by a caller is replaced. */
    method BeforeCreate()
      modifies this
      ensures nextMaintenanceDate == Some(NextDate(maintenanceType, maintenanceDate))
      ensures maintenanceType == old(maintenanceType) && maintenanceDate == old(maintenanceDate)
    {
      CalculateNextMaintenanceDate();
    }

    method BeforeUpdate()
      modifies this
      ensures nextMaintenanceDate == Some(NextDate(maintenanceType, maintenanceDate))
      ensures maintenanceType == old(maintenanceType) && maintenanceDate == old(maintenanceDate)
    {
      CalculateNextMaintenanceDate();
    }
  }

  /** Running the hooks again changes nothing, and the stored date is later than the
      maintenance date. */
  method HooksIdempotent(r: MaintenanceRecord)
    modifies r
    ensures r.nextMaintenanceDate == Some(NextDate(old(r.maintenanceType), old(r.maintenanceDate)))
    ensures r.nextMaintenanceDate.value > r.maintenanceDate
  {
    r.BeforeCreate();
    var first := r.nextMaintenanceDate;
    r.BeforeUpdate();
    assert r.nextMaintenanceDate == first;
  }
}

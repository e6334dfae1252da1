/** The clothing-tag service (server/services/Clothing_tag_service.go) over an in-memory
    `clothing_tags` table. The SQL list queries are not modelled: the rows they return are
    parameters. Percentages are kept as the exact fraction the float approximates. */
module TagService {
  import opened Wrappers
  import Enums
  import opened TagModel
  import opened ApiErrors
  import ControllerHelpers

  type Table = map<nat, ClothingTag>

  /** `dto.TagDTO`. */
  datatype TagDTO = TagDTO(id: nat, name: string, kind: string, color: string, description: string)

  /** `dto.CreateTagDTO` and `dto.UpdateTagDTO` (a nil pointer is None). */
  datatype CreateTagRequest = CreateTagRequest(name: string, kind: string, description: string, color: string)
  datatype UpdateTagRequest = UpdateTagRequest(name: Option<string>, description: Option<string>, color: Option<string>)

  /** `Percentage`: 0 when no tag is in use, else `count / total * 100`, here the exact
      fraction before float rounding. */
  datatype Percentage = NoUsage | Share(count: nat, total: nat)

  datatype TagStatsItem = TagStatsItem(tagName: string, count: nat, percentage: Percentage)

  /** What the service returns on failure: the repository's record-not-found error passed
      through unchanged, or an API error. */
  datatype TagError = RecordNotFound | Api(error: APIError)

  const InvalidTagType := Api(ErrInvalidRequest("invalid tag type", []))
  const PermissionDenied := Api(ErrForbidden("permission denied", []))
  const SystemNotUpdatable := Api(ErrForbidden("system tags cannot be updated", []))
  const SystemNotDeletable := Api(ErrForbidden("system tags cannot be deleted", []))

  /** `convertToDTO`: id, name, type and description; the colour is never filled in. */
  function ToDTO(tag: ClothingTag): (r: TagDTO)
    ensures r.id == tag.id && r.name == tag.name && r.kind == tag.kind && r.description == tag.description
    ensures r.color == ""
  {
    TagDTO(tag.id, tag.name, tag.kind, "", tag.description)
  }

  /** A system tag as `GetSystemTagEnumsByType` and `GetAllSystemTagEnums` convert it. */
  function SystemTagDTO(tag: Enums.SystemTag): (r: TagDTO)
    ensures r.id == tag.id && r.name == tag.name && r.kind == tag.kind && r.description == tag.description
    ensures r.color == ""
  {
    TagDTO(tag.id, tag.name, tag.kind, "", tag.description)
  }

  /** `convertToDTOList`: one DTO per tag, in order. */
  method ConvertToDTOList(tags: seq<ClothingTag>) returns (r: seq<TagDTO>)
    ensures |r| == |tags|
    ensures forall i :: 0 <= i < |tags| ==> r[i] == ToDTO(tags[i])
  {
    r := [];
    var i := 0;
    while i < |tags|
      invariant 0 <= i <= |tags| && |r| == i
      invariant forall j :: 0 <= j < i ==> r[j] == ToDTO(tags[j])
    {
      r := r + [ToDTO(tags[i])];
      i := i + 1;
    }
  }

  /** The conversion loop over an API system-tag list. */
  method SystemTagDTOs(tags: seq<Enums.SystemTag>) returns (r: seq<TagDTO>)
    ensures |r| == |tags|
    ensures forall i :: 0 <= i < |tags| ==> r[i] == SystemTagDTO(tags[i])
  {
    r := [];
    var i := 0;
    while i < |tags|
      invariant 0 <= i <= |tags| && |r| == i
      invariant forall j :: 0 <= j < i ==> r[j] == SystemTagDTO(tags[j])
    {
      r := r + [SystemTagDTO(tags[i])];
      i := i + 1;
    }
  }

  /** `GetSystemTagEnumsByType`: the API list of that type converted in order, every entry
      of the type asked for; an empty list for "custom" and unknown types. */
  method GetSystemTagEnumsByType(kind: string) returns (r: seq<TagDTO>)
    ensures |r| == |Enums.GetSystemTagsByType(kind)|
    ensures forall i :: 0 <= i < |r| ==> r[i] == SystemTagDTO(Enums.GetSystemTagsByType(kind)[i])
    ensures forall i :: 0 <= i < |r| ==> r[i].kind == kind
    ensures kind !in Enums.SystemTags ==> r == []
  {
    var systemTags := Enums.GetSystemTagsByType(kind);
    if |systemTags| == 0 {
      return [];
    }
    r := SystemTagDTOs(systemTags);
    forall i | 0 <= i < |r| ensures r[i].kind == kind {
      Enums.SystemTagsFiledByType(kind, i);
    }
  }

  /** The map `GetAllSystemTagEnums` is building: each key visited so far holds its list
      converted. */
  ghost predicate EnumsSoFar(r: map<string, seq<TagDTO>>, visited: set<string>) {
    && r.Keys == visited
    && visited <= Enums.SystemTags.Keys
    && forall k :: k in r ==>
         |r[k]| == |Enums.SystemTags[k]| && forall i :: 0 <= i < |r[k]| ==> r[k][i] == SystemTagDTO(Enums.SystemTags[k][i])
  }

  /** `GetAllSystemTagEnums`: exactly one key per type in `SystemTags`, each holding that
      type's list converted in order; the key order of the map range plays no part. */
  method GetAllSystemTagEnums() returns (r: map<string, seq<TagDTO>>)
    ensures r.Keys == Enums.SystemTags.Keys
    ensures forall k :: k in r ==> |r[k]| == |Enums.SystemTags[k]|
    ensures forall k, i :: k in r && 0 <= i < |r[k]| ==> r[k][i] == SystemTagDTO(Enums.SystemTags[k][i])
  {
    r := map[];
    var remaining := Enums.SystemTags.Keys;
    while remaining != {}
      invariant remaining <= Enums.SystemTags.Keys
      invariant EnumsSoFar(r, Enums.SystemTags.Keys - remaining)
      decreases |remaining|
    {
      var tagType :| tagType in remaining;
      var tagDTOs := SystemTagDTOs(Enums.SystemTags[tagType]);
      r := r[tagType := tagDTOs];
      remaining := remaining - {tagType};
    }
  }

  /** The sum of the values of a usage map, taken in no particular order. */
  ghost function Sum(m: map<nat, nat>): nat
    decreases |m.Keys|
  {
    if m.Keys == {} then 0
    else
      var k :| k in m.Keys;
      assert (m - {k}).Keys == m.Keys - {k};
      m[k] + Sum(m - {k})
  }

  /** The sum does not depend on which key is taken first. */
  lemma {:induction false} SumRemove(m: map<nat, nat>, k: nat)
    requires k in m
    ensures Sum(m) == m[k] + Sum(m - {k})
    decreases |m.Keys|
  {
    var j :| j in m.Keys && Sum(m) == m[j] + Sum(m - {j});
    if j != k {
      assert (m - {j}).Keys == m.Keys - {j};
      assert (m - {k}).Keys == m.Keys - {k};
      SumRemove(m - {j}, k);
      SumRemove(m - {k}, j);
      assert m - {j} - {k} == m - {k} - {j};
    }
  }

  /** Each count is at most the total, and a zero total means every count is zero. */
  lemma {:induction false} SumBounds(m: map<nat, nat>, k: nat)
    requires k in m
    ensures m[k] <= Sum(m)
    ensures Sum(m) == 0 ==> m[k] == 0
  {
    SumRemove(m, k);
  }

  /** `statsMap[tag.ID]`: the usage count, 0 for a tag no active item carries. */
  function UsageOf(statsMap: map<nat, nat>, id: nat): (n: nat)
    ensures id in statsMap ==> n == statsMap[id]
    ensures id !in statsMap ==> n == 0
  {
    if id in statsMap then statsMap[id] else 0
  }

  /** What `GetTagStats` lists for one tag given the total. */
  function StatsItem(tag: ClothingTag, statsMap: map<nat, nat>, total: nat): (r: TagStatsItem)
    ensures r.tagName == tag.name && r.count == UsageOf(statsMap, tag.id)
    ensures total == 0 <==> r.percentage == NoUsage
    ensures total > 0 ==> r.percentage == Share(r.count, total)
  {
    var count := UsageOf(statsMap, tag.id);
    TagStatsItem(tag.name, count, if total > 0 then Share(count, total) else NoUsage)
  }

  /** `GetTagStats` over the user's tags and the usage map the repository fetched: the
      total is the sum of all usage counts, then one entry per tag in order. */
  method GetTagStats(tags: seq<ClothingTag>, statsMap: map<nat, nat>) returns (total: nat, result: seq<TagStatsItem>)
    ensures total == Sum(statsMap)
    ensures |result| == |tags|
    ensures forall i :: 0 <= i < |tags| ==> result[i] == StatsItem(tags[i], statsMap, total)
  {
    total := 0;
    var rest := statsMap;
    while rest.Keys != {}
      invariant total + Sum(rest) == Sum(statsMap)
      decreases |rest.Keys|
    {
      var id :| id in rest;
      SumRemove(rest, id);
      total := total + rest[id];
      assert (rest - {id}).Keys == rest.Keys - {id};
      rest := rest - {id};
    }
    result := [];
    var i := 0;
    while i < |tags|
      invariant 0 <= i <= |tags| && |result| == i
      invariant forall j :: 0 <= j < i ==> result[j] == StatsItem(tags[j], statsMap, total)
    {
      var count := UsageOf(statsMap, tags[i].id);
      var percentage := NoUsage;
      if total > 0 {
        percentage := Share(count, total);
      }
      result := result + [TagStatsItem(tags[i].name, count, percentage)];
      i := i + 1;
    }
  }

  /** The shares of `GetTagStats`: no tag counts more than the total, and with a zero total
      every count is zero and no percentage is computed. */
  lemma TagStatsShares(tags: seq<ClothingTag>, statsMap: map<nat, nat>, i: nat)
    requires i < |tags|
    ensures StatsItem(tags[i], statsMap, Sum(statsMap)).count <= Sum(statsMap)
    ensures Sum(statsMap) == 0 ==> StatsItem(tags[i], statsMap, Sum(statsMap)) == TagStatsItem(tags[i].name, 0, NoUsage)
  {
    if tags[i].id in statsMap {
      SumBounds(statsMap, tags[i].id);
    }
  }

  /** The refusal `UpdateTag` and `DeleteTag` share: another user's non-system tag is
      denied first, then every system tag is refused with `systemError`. */
  function Refusal(tag: ClothingTag, userId: nat, systemError: TagError): (r: Option<TagError>)
    ensures tag.isSystem ==> r == Some(systemError)
  {
    if tag.userId.Some? && tag.userId.value != userId && !tag.isSystem then Some(PermissionDenied)
    else if tag.isSystem then Some(systemError)
    else None
  }

  /** Who may change a tag: exactly the non-system tags that are the caller's own or have
      no owner, so an ownerless non-system tag is open to every user and a system tag to
      none, the caller's own included. */
  lemma RefusalRules(tag: ClothingTag, userId: nat, systemError: TagError)
    ensures Refusal(tag, userId, systemError).None? <==> !tag.isSystem && (tag.userId.None? || tag.userId == Some(userId))
    ensures !tag.isSystem && tag.userId.None? ==> forall u: nat :: Refusal(tag, u, systemError).None?
    ensures tag.isSystem ==> forall u: nat :: Refusal(tag, u, systemError) == Some(systemError)
    ensures !tag.isSystem && tag.userId.Some? && tag.userId.value != userId ==>
              Refusal(tag, userId, systemError) == Some(PermissionDenied)
  {
  }

  /** The tag `CreateTag` stores: name, type and description from the request, a user tag
      owned by the caller and active; the colour is not copied. */
  function NewTag(id: nat, userId: nat, req: CreateTagRequest): (r: ClothingTag)
    ensures r.id == id && r.name == req.name && r.kind == req.kind && r.description == req.description
    ensures !r.isSystem && r.isActive && r.userId == Some(userId)
    ensures r.color == "" && r.icon == "" && r.sortOrder == 0
  {
    ClothingTag(id, req.name, req.kind, req.description, "", "", false, true, 0, Some(userId))
  }

  /** The fields `UpdateTag` patches: name and description when given; the colour is
      ignored. */
  function Patch(tag: ClothingTag, req: UpdateTagRequest): (r: ClothingTag)
    ensures r == tag.(name := req.name.GetOr(tag.name), description := req.description.GetOr(tag.description))
    ensures r.color == tag.color && r.kind == tag.kind && r.userId == tag.userId && r.isSystem == tag.isSystem
  {
    var t := if req.name.Some? then tag.(name := req.name.value) else tag;
    if req.description.Some? then t.(description := req.description.value) else t
  }

  /** The outcome of `UpdateTag` on a table: not found, a refusal, or the patched tag. */
  function UpdateOutcome(tags: Table, userId: nat, tagId: nat, req: UpdateTagRequest): Result<ClothingTag, TagError> {
    if tagId !in tags then Err(RecordNotFound)
    else match Refusal(tags[tagId], userId, SystemNotUpdatable)
      case Some(e) => Err(e)
      case None => Ok(Patch(tags[tagId], req))
  }

  /** The outcome of `DeleteTag`: not found, a refusal, or success. */
  function DeleteOutcome(tags: Table, userId: nat, tagId: nat): Option<TagError> {
    if tagId !in tags then Some(RecordNotFound)
    else Refusal(tags[tagId], userId, SystemNotDeletable)
  }

  /** The tag store behind the service: the rows of `clothing_tags` by id and the next
      auto-increment id. */
  class TagStore {
    var tags: Table
    var nextId: nat

    /** Rows are keyed by their id, and every id is below `nextId` and not 0. */
    ghost predicate Valid()
      reads this
    {
      0 < nextId && forall k :: k in tags ==> tags[k].id == k && 0 < k < nextId
    }

    constructor ()
      ensures Valid() && tags == map[] && nextId == 1
    {
      tags := map[];
      nextId := 1;
    }

    /** `CreateTag`: a type outside the four API types is refused before anything is
        stored; otherwise the new tag takes the next id. */
    method CreateTag(userId: nat, req: CreateTagRequest) returns (r: Result<TagDTO, TagError>)
      requires Valid()
      modifies this
      ensures Valid()
      ensures !Enums.IsValidTagType(req.kind) ==>
                r == Err(InvalidTagType) && tags == old(tags) && nextId == old(nextId)
      ensures Enums.IsValidTagType(req.kind) ==>
                && tags == old(tags)[old(nextId) := NewTag(old(nextId), userId, req)]
                && nextId == old(nextId) + 1
                && r == Ok(ToDTO(NewTag(old(nextId), userId, req)))
    {
      if !Enums.IsValidTagType(req.kind) {
        return Err(InvalidTagType);
      }
      var tag := NewTag(nextId, userId, req);
      tags := tags[nextId := tag];
      nextId := nextId + 1;
      return Ok(ToDTO(tag));
    }

    /** `GetTag`: the row with that id, active or not. */
    method GetTag(tagId: nat) returns (r: Result<TagDTO, TagError>)
      ensures tagId !in tags ==> r == Err(RecordNotFound)
      ensures tagId in tags ==> r == Ok(ToDTO(tags[tagId]))
    {
      if tagId !in tags {
        return Err(RecordNotFound);
      }
      return Ok(ToDTO(tags[tagId]));
    }

    /** `UpdateTag`: the lookup, the two permission checks, the patch and the save. */
    method UpdateTag(userId: nat, tagId: nat, req: UpdateTagRequest) returns (r: Result<TagDTO, TagError>)
      requires Valid()
      modifies this
      ensures Valid() && nextId == old(nextId)
      ensures UpdateOutcome(old(tags), userId, tagId, req).Err? ==>
                r == Err(UpdateOutcome(old(tags), userId, tagId, req).error) && tags == old(tags)
      ensures UpdateOutcome(old(tags), userId, tagId, req).Ok? ==>
                && tags == old(tags)[tagId := UpdateOutcome(old(tags), userId, tagId, req).value]
                && r == Ok(ToDTO(UpdateOutcome(old(tags), userId, tagId, req).value))
    {
      if tagId !in tags {
        return Err(RecordNotFound);
      }
      var tag := tags[tagId];
      if tag.userId.Some? && tag.userId.value != userId && !tag.isSystem {
        return Err(PermissionDenied);
      }
      if tag.isSystem {
        return Err(SystemNotUpdatable);
      }
      if req.name.Some? {
        tag := tag.(name := req.name.value);
      }
      if req.description.Some? {
        tag := tag.(description := req.description.value);
      }
      tags := tags[tagId := tag];
      return Ok(ToDTO(tag));
    }

    /** `DeleteTag`: the lookup and the two permission checks, then the repository's soft
        delete, which only clears `is_active`. */
    method DeleteTag(userId: nat, tagId: nat) returns (err: Option<TagError>)
      requires Valid()
      modifies this
      ensures Valid() && nextId == old(nextId)
      ensures err == DeleteOutcome(old(tags), userId, tagId)
      ensures err.Some? ==> tags == old(tags)
      ensures err.None? ==> tags == old(tags)[tagId := old(tags)[tagId].(isActive := false)]
    {
      if tagId !in tags {
        return Some(RecordNotFound);
      }
      var tag := tags[tagId];
      if tag.userId.Some? && tag.userId.value != userId && !tag.isSystem {
        return Some(PermissionDenied);
      }
      if tag.isSystem {
        return Some(SystemNotDeletable);
      }
      tags := tags[tagId := tag.(isActive := false)];
      return None;
    }
  }

  /** A deleted tag keeps its row: `GetByID` has no `is_active` filter, so the owner can
      still read and update it and delete it again. */
  lemma DeletedTagStaysReachable(tags: Table, userId: nat, tagId: nat, req: UpdateTagRequest)
    requires DeleteOutcome(tags, userId, tagId).None?
    ensures var after := tags[tagId := tags[tagId].(isActive := false)];
      && tagId in after && !after[tagId].isActive
      && UpdateOutcome(after, userId, tagId, req).Ok?
      && DeleteOutcome(after, userId, tagId).None?
  {
    RefusalRules(tags[tagId], userId, SystemNotDeletable);
  }

  /** A tag the caller creates is the caller's to update and delete, and nobody else's. */
  lemma CreatedTagIsOwned(tags: Table, id: nat, userId: nat, other: nat, req: CreateTagRequest, patch: UpdateTagRequest)
    requires other != userId
    ensures var after := tags[id := NewTag(id, userId, req)];
      && UpdateOutcome(after, userId, id, patch).Ok?
      && DeleteOutcome(after, userId, id).None?
      && UpdateOutcome(after, other, id, patch) == Err(PermissionDenied)
      && DeleteOutcome(after, other, id) == Some(PermissionDenied)
  {
  }

  /** The three tag-type checks a create request meets: "color", "material" and "brand" pass
      the model's and the handler's validators but the service refuses them. */
  lemma ServiceRefusesHandlerTypes(kind: string)
    requires kind in {"color", "material", "brand"}
    ensures ControllerHelpers.IsValidTagType(kind) && TagModel.IsValidTagType(kind)
    ensures !Enums.IsValidTagType(kind)
  {
    TagTypeValidators(kind);
  }
}

/**
 * The annotation record of the BIM viewer: an issue, note or measurement
 * anchored to a model object or to a point in world space, plus the two
 * partial shapes the service accepts from its callers (the draft given to
 * `add` and the patch given to `update`).
 */
module Annotations {
  import opened Wrappers

  /** The schema version every newly created record carries. */
  const CurrentSchemaVersion: string := "1.0"

  datatype Severity = Info | Warning | Error | Critical
  datatype Kind = Text | Measurement | Markup
  datatype Status = Open | InProgress | Resolved | Closed
  datatype AnchorType = ObjectAnchor | WorldAnchor

  /** A JavaScript number; the service stores and copies it, never computes with it. */
  type Number = real

  datatype Vec3 = Vec3(x: Number, y: Number, z: Number)

  /**
   * The anchor is a plain record: the tag and the two optional payloads are
   * independent, and nothing ties the tag to the payload that is present.
   */
  datatype Anchor = Anchor(anchorType: AnchorType, objectId: Option<string>, worldPos: Option<Vec3>)

  /** Camera pose saved with an annotation; opaque to the service. */
  datatype Viewpoint = Viewpoint(eye: Vec3, look: Vec3, up: Vec3, selectedObjects: seq<string>)

  datatype Annotation = Annotation(
    id: string,
    schemaVersion: string,
    kind: Kind,
    anchor: Anchor,
    author: string,
    createdAt: string,
    updatedAt: string,
    comment: string,
    severity: Severity,
    status: Status,
    viewpoint: Option<Viewpoint>)

  /** What a caller of `add` supplies: a record without id, timestamps and schema version. */
  datatype Draft = Draft(
    kind: Kind,
    anchor: Anchor,
    author: string,
    comment: string,
    severity: Severity,
    status: Status,
    viewpoint: Option<Viewpoint>)

  /** The caller-supplied part of a record. */
  function DraftOf(a: Annotation): Draft {
    Draft(a.kind, a.anchor, a.author, a.comment, a.severity, a.status, a.viewpoint)
  }

  /** The record `add` builds from a draft, a fresh id and the current time. */
  function NewAnnotation(draft: Draft, id: string, now: string): (r: Annotation)
    ensures r.id == id && r.schemaVersion == CurrentSchemaVersion
    ensures r.createdAt == now && r.updatedAt == now
    ensures DraftOf(r) == draft
  {
    Annotation(id, CurrentSchemaVersion, draft.kind, draft.anchor, draft.author,
               now, now, draft.comment, draft.severity, draft.status, draft.viewpoint)
  }

  /**
   * A partial record: every property of an annotation may be present or
   * absent. `update` spreads it over the stored record, so a present
   * property replaces the stored one.
   */
  datatype Patch = Patch(
    id: Option<string>,
    schemaVersion: Option<string>,
    kind: Option<Kind>,
    anchor: Option<Anchor>,
    author: Option<string>,
    createdAt: Option<string>,
    updatedAt: Option<string>,
    comment: Option<string>,
    severity: Option<Severity>,
    status: Option<Status>,
    viewpoint: Option<Viewpoint>)

  const EmptyPatch: Patch := Patch(None, None, None, None, None, None, None, None, None, None, None)

  /** The patch that carries every property of `a`. */
  function PatchOf(a: Annotation): Patch {
    Patch(Some(a.id), Some(a.schemaVersion), Some(a.kind), Some(a.anchor), Some(a.author),
          Some(a.createdAt), Some(a.updatedAt), Some(a.comment), Some(a.severity),
          Some(a.status), a.viewpoint)
  }

  /** The patch equivalent to applying `first` and then `second`: `second` wins where both are present. */
  function Then(first: Patch, second: Patch): Patch {
    Patch(
      if second.id.Some? then second.id else first.id,
      if second.schemaVersion.Some? then second.schemaVersion else first.schemaVersion,
      if second.kind.Some? then second.kind else first.kind,
      if second.anchor.Some? then second.anchor else first.anchor,
      if second.author.Some? then second.author else first.author,
      if second.createdAt.Some? then second.createdAt else first.createdAt,
      if second.updatedAt.Some? then second.updatedAt else first.updatedAt,
      if second.comment.Some? then second.comment else first.comment,
      if second.severity.Some? then second.severity else first.severity,
      if second.status.Some? then second.status else first.status,
      if second.viewpoint.Some? then second.viewpoint else first.viewpoint)
  }

  /**
   * `{ ...existing, ...patch, id, updatedAt: now }`: the patch overrides the
   * stored record property by property, then the id and `updatedAt` are forced.
   */
  function ApplyPatch(existing: Annotation, patch: Patch, id: string, now: string): (r: Annotation)
    ensures r.id == id && r.updatedAt == now
  {
    Annotation(
      id,
      patch.schemaVersion.GetOr(existing.schemaVersion),
      patch.kind.GetOr(existing.kind),
      patch.anchor.GetOr(existing.anchor),
      patch.author.GetOr(existing.author),
      patch.createdAt.GetOr(existing.createdAt),
      now,
      patch.comment.GetOr(existing.comment),
      patch.severity.GetOr(existing.severity),
      patch.status.GetOr(existing.status),
      if patch.viewpoint.Some? then patch.viewpoint else existing.viewpoint)
  }

  /** Each property of `r` is the patch's where the patch has it and the old record's otherwise. */
  ghost predicate FollowsPatch(r: Annotation, existing: Annotation, patch: Patch) {
    && r.schemaVersion == (if patch.schemaVersion.Some? then patch.schemaVersion.value else existing.schemaVersion)
    && r.kind == (if patch.kind.Some? then patch.kind.value else existing.kind)
    && r.anchor == (if patch.anchor.Some? then patch.anchor.value else existing.anchor)
    && r.author == (if patch.author.Some? then patch.author.value else existing.author)
    && r.createdAt == (if patch.createdAt.Some? then patch.createdAt.value else existing.createdAt)
    && r.comment == (if patch.comment.Some? then patch.comment.value else existing.comment)
    && r.severity == (if patch.severity.Some? then patch.severity.value else existing.severity)
    && r.status == (if patch.status.Some? then patch.status.value else existing.status)
    && r.viewpoint == (if patch.viewpoint.Some? then patch.viewpoint else existing.viewpoint)
  }

  /** A patched record takes the patch's properties and keeps the rest; its id ignores the patch. */
  lemma ApplyPatchFollowsPatch(existing: Annotation, patch: Patch, id: string, now: string)
    ensures FollowsPatch(ApplyPatch(existing, patch, id, now), existing, patch)
    ensures ApplyPatch(existing, patch, id, now).id == id
    ensures ApplyPatch(existing, patch, id, now).updatedAt == now
  {
  }

  /** An empty patch only refreshes `updatedAt`. */
  lemma EmptyPatchOnlyTouches(existing: Annotation, now: string)
    ensures ApplyPatch(existing, EmptyPatch, existing.id, now) == existing.(updatedAt := now)
  {
  }

  /**
   * Only the id and `updatedAt` are protected: a patch carrying every
   * property of `a` (its id, creation time and version included) yields `a`
   * apart from those two, and apart from the viewpoint when `a` has none
   * (an absent property does not clear the stored one).
   */
  lemma OnlyIdAndUpdatedAtProtected(existing: Annotation, a: Annotation, id: string, now: string)
    ensures ApplyPatch(existing, PatchOf(a), id, now)
         == a.(id := id, updatedAt := now,
               viewpoint := if a.viewpoint.Some? then a.viewpoint else existing.viewpoint)
  {
  }

  /** Two successive updates of one record equal one update with the combined patch. */
  lemma ApplyPatchThen(existing: Annotation, p: Patch, q: Patch, id: string, t1: string, t2: string)
    ensures ApplyPatch(ApplyPatch(existing, p, id, t1), q, id, t2) == ApplyPatch(existing, Then(p, q), id, t2)
  {
  }

  /** Re-applying the same patch at the same time changes nothing. */
  lemma ApplyPatchIdempotent(existing: Annotation, p: Patch, id: string, now: string)
    ensures ApplyPatch(ApplyPatch(existing, p, id, now), p, id, now) == ApplyPatch(existing, p, id, now)
  {
  }
}

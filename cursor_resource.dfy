/** `CursorResource`: the REST resource of cursors. Its name falls back to
    `cursors` when none (or an empty one) was given, and it never has an action. */
module CursorResource {
  import opened PutRecords

  /** `DEFAULT_RESOURCE_NAME`. */
  const DefaultResourceName := "cursors"

  /** The two fields, each possibly null; the two-argument constructor sets
      them as given. */
  datatype Resource = Resource(resourceName: Option<string>, resourceId: Option<string>)

  /** The one-argument constructor: no name. */
  function WithId(resourceId: Option<string>): (r: Resource)
    ensures r.resourceName.None? && r.resourceId == resourceId
  {
    Resource(None, resourceId)
  }

  /** `getResourceName()`: never empty; the name given when it is not empty,
      `cursors` otherwise. */
  function GetResourceName(r: Resource): (name: string)
    ensures name != ""
    ensures name == DefaultResourceName <==> (IsNullOrEmpty(r.resourceName) || r.resourceName == Some(DefaultResourceName))
    ensures !IsNullOrEmpty(r.resourceName) ==> Some(name) == r.resourceName
  {
    if IsNullOrEmpty(r.resourceName) then DefaultResourceName else r.resourceName.value
  }

  function GetResourceId(r: Resource): Option<string> {
    r.resourceId
  }

  /** `getAction()`: null whatever the resource. */
  function GetAction(r: Resource): Option<string> {
    None
  }

  /** The one-argument constructor reads as `cursors` with the given id; the
      two-argument one as its name (or `cursors`) and id; neither has an action. */
  lemma ConstructorsRead(name: Option<string>, id: Option<string>)
    ensures GetResourceName(WithId(id)) == DefaultResourceName && GetResourceId(WithId(id)) == id
    ensures GetResourceName(Resource(name, id)) == if IsNullOrEmpty(name) then DefaultResourceName else name.value
    ensures GetResourceId(Resource(name, id)) == id
    ensures GetAction(WithId(id)).None? && GetAction(Resource(name, id)).None?
  {
  }
}

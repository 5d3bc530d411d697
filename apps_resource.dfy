/** `AppsResource`: the REST resource of consumer apps. Its name falls back to
    `apps` when none (or an empty one) was given. */
module AppsResource {
  import opened PutRecords

  /** `DEFAULT_RESOURCE_NAME`. */
  const DefaultResourceName := "apps"

  /** The three fields, each possibly null; the three-argument constructor
      sets them as given. */
  datatype Resource = Resource(resourceName: Option<string>, resourceId: Option<string>, action: Option<string>)

  /** The two-argument constructor: no action. */
  function Named(resourceName: Option<string>, resourceId: Option<string>): (r: Resource)
    ensures r.resourceName == resourceName && r.resourceId == resourceId && r.action.None?
  {
    Resource(resourceName, resourceId, None)
  }

  /** The one-argument constructor: no name and no action. */
  function WithId(resourceId: Option<string>): (r: Resource)
    ensures r.resourceName.None? && r.resourceId == resourceId && r.action.None?
  {
    Named(None, resourceId)
  }

  /** `getResourceName()`: never empty; the name given when it is not empty,
      `apps` otherwise. */
  function GetResourceName(r: Resource): (name: string)
    ensures name != ""
    ensures name == DefaultResourceName <==> (IsNullOrEmpty(r.resourceName) || r.resourceName == Some(DefaultResourceName))
    ensures !IsNullOrEmpty(r.resourceName) ==> Some(name) == r.resourceName
  {
    if IsNullOrEmpty(r.resourceName) then DefaultResourceName else r.resourceName.value
  }

  function GetResourceId(r: Resource): Option<string> {
    r.resourceId
  }

  function GetAction(r: Resource): Option<string> {
    r.action
  }

  /** What each constructor leaves the getters to read: the one-argument
      constructor reads as `apps` with the given id and no action, the
      two-argument one as its name (or `apps`) and id with no action, and the
      three-argument one hands back the id and action it was given. */
  lemma ConstructorsRead(name: Option<string>, id: Option<string>, action: Option<string>)
    ensures GetResourceName(WithId(id)) == DefaultResourceName
    ensures GetResourceId(WithId(id)) == id && GetAction(WithId(id)).None?
    ensures GetResourceName(Named(name, id)) == if IsNullOrEmpty(name) then DefaultResourceName else name.value
    ensures GetResourceId(Named(name, id)) == id && GetAction(Named(name, id)).None?
    ensures GetResourceId(Resource(name, id, action)) == id && GetAction(Resource(name, id, action)) == action
  {
  }
}

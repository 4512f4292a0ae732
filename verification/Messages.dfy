/** The messages of the action queue. */
module Messages {
  import opened Wrappers
  import Json

  type Id = string

  datatype Msg = Msg(
    actionDefinitionId: Id, triggerEventId: Option<Id>, manualInvokerId: Option<Id>,
    context: Option<Json.Json>, attempt: Option<int>)
}

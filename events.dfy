/** The custom events the components exchange on the document. */
module Events {
  datatype Event =
    | StormIsCalmingDown
    | WindBlowing(windBlowing: bool)
    | ToggleGravity(shouldEverythingFalls: bool)
    | RotateCam(delta: real)
}

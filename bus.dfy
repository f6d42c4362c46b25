/** The document-level event bus: the cloth and the wind each listen for
    `stormIsCalmingDown` and `windBlowing`; the cloth's listeners were
    registered first, so they run first. `toggleGravity` and `rotateCam`
    go to the scene, which is not part of this model. */
module Bus {
  import opened ClothSim
  import opened WindField
  import opened Events

  /** Dispatches one event to every listener of the cloth and the wind.
      A calming storm puts the cloth to rest and (through the `false` bound
      to the wind's handler) sets the wind blowing; a `windBlowing` event
      sets both the cloth's slow-down flag and the wind to its value. */
  method Deliver(e: Event, cloth: Cloth, wind: Wind)
    requires cloth.Valid() && wind.Valid()
    modifies cloth`isSlowingDown, cloth`queuedRestTweens, wind`isBlowing, wind`forceTween, wind`force
    ensures cloth.Valid() && wind.Valid()
    ensures e.StormIsCalmingDown? ==>
              wind.isBlowing && cloth.isSlowingDown == old(cloth.isSlowingDown) &&
              cloth.queuedRestTweens == if old(cloth.isResting) then old(cloth.queuedRestTweens)
                                        else old(cloth.queuedRestTweens) + 1
    ensures e.WindBlowing? ==>
              cloth.isSlowingDown == e.windBlowing && wind.isBlowing == e.windBlowing &&
              cloth.queuedRestTweens == old(cloth.queuedRestTweens)
    ensures (e.ToggleGravity? || e.RotateCam?) ==>
              unchanged(cloth`isSlowingDown, cloth`queuedRestTweens, wind`isBlowing, wind`forceTween, wind`force)
  {
    match e
    case StormIsCalmingDown =>
      cloth.Rest();
      wind.OnWindChange(Calming);
    case WindBlowing(b) =>
      cloth.OnToggleWind(b);
      wind.OnWindChange(Toggle(b));
    case ToggleGravity(_) =>
    case RotateCam(_) =>
  }
}

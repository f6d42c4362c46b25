/** Values shared by every component of the slideshow: optional values,
    3-vectors over the reals (an idealisation of JavaScript numbers) and the
    read-only layout facts the components receive from the page. */
module Common {

  datatype Option<T> = None | Some(value: T)

  /** A 3-vector, as used for positions, velocities, forces and directions. */
  datatype Vec3 = Vec3(x: real, y: real, z: real)

  const Zero: Vec3 := Vec3(0.0, 0.0, 0.0)

  function Scale(v: Vec3, k: real): Vec3
  {
    Vec3(v.x * k, v.y * k, v.z * k)
  }

  function Add(a: Vec3, b: Vec3): Vec3
  {
    Vec3(a.x + b.x, a.y + b.y, a.z + b.z)
  }

  /** Device class and viewport measurements: `W` and `H` are the viewport's
      width and height and `D` the depth constant derived from them. Desktop
      means neither mobile nor tablet, so a desktop is never mobile. */
  datatype Layout = Layout(isMobile: bool, isDesktop: bool, W: real, H: real, D: real)
  {
    ghost predicate Valid()
    {
      (isDesktop ==> !isMobile) && W > 0.0 && H > 0.0
    }
  }
}

/// Plain 2-, 3- and 4-component vectors. The engine stores them as f32
/// triples; here their components are mathematical reals.
module Vectors {

  datatype Vec2 = Vec2(x: real, y: real)

  datatype Vec3 = Vec3(x: real, y: real, z: real)

  /// Also used for RGBA colours: (x, y, z, w) = (r, g, b, a)
  datatype Vec4 = Vec4(x: real, y: real, z: real, w: real)
}

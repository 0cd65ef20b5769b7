/** The message the client sends to the server, shared by both sides of the game. */
module Protocol {

  /** A 3-vector of the engine's single-precision floats, modelled as reals.
      The resolver never computes with these values; it only carries them. */
  datatype Vec3 = Vec3(x: real, y: real, z: real)

  /** A world-space ray through the centre of the active camera's view. */
  datatype Ray = Ray(origin: Vec3, dir: Vec3)

  /** What the player asks for: grab the object under the cross-hair, or drop
      whatever they hold. */
  datatype InteractState = Pickup | LetGo

  /** The `Interact` message: the camera ray and the intent. */
  datatype Interact = Interact(rayOrigin: Vec3, rayDir: Vec3, interaction: InteractState)
}

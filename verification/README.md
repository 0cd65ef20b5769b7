# Pickup and let-go in the jungle fulfillment centre

This project models the object-interaction core of a small multiplayer sandbox
scene. The scene runs on a host game engine. A player aims at a cube and presses
the left mouse button to pick it up, then releases the button to let it go.

The server owns the outcome. Its `Interact` handler reads a table of entities.
Three components of each entity matter:

- the `holdable` tag;
- an optional `color` (the "held" marker);
- an optional `held_by`, which is the holding player's client entity.

A message either leaves the table as it was or rewrites the `color` and
`held_by` of one entity together. The client turns each frame's mouse-button
edges into a list of messages to send.

Modules:

- `Wrappers` (wrappers.dfy): `Option`.
- `Protocol` (protocol.dfy): the `Interact` message and the `InteractState`
  intent.
- `World` (world.dfy): the entity table `map<EntityId, EntityRec>`, its
  invariant, and the cube spawner that builds the initial holdable cubes.
- `Server` (server.dfy): the resolver as a pure `Step` function, plus its
  rejection, success, frame and scenario lemmas.
- `Client` (client.dfy): the frame handler as a pure function from one frame's
  input to the messages it sends.
- `Session` (session.dfy): the client and server composed, for the end-to-end
  press/release properties.

Host calls are oracle inputs:

- The physics raycast along the message's ray is the parameter
  `hit: Option<EntityId>`.
- The host's iteration order for the `held_by` query is `order: seq<EntityId>`.
  The code's `find` returns the first match in that order, and the model leaves
  the order unspecified. Properties that need a let-go to see every held entity
  assume `Covers(w, order)`: every live entity appears in the order.
  `Server.ReleaseTarget` states that the entity released is the first one in
  the order that the sender holds.
- The active camera's centre ray is `cameraRay: Option<Ray>`. It is `None` when
  no camera is active.

The invariant is `Valid`. Every held entity carries a colour and is holdable.
It holds for a scene where nothing is held. Spawning cubes keeps it, and every
message keeps it.

Facts about the code that the model makes explicit:

- The handler does not limit a player to one held entity. A second pickup of
  another uncoloured holdable entity succeeds (`Server.PlayerMayHoldTwo`).
- A let-go releases the first `held_by` entry, in query order, whose holder is
  the sender (`Server.ReleaseTarget`). When the sender holds several entities,
  which one that is depends on the host's order.
- Releasing twice changes the world only the first time when the player holds
  at most one entity and the first let-go's query order lists every entity
  (`Server.LetGoIdempotentForSingleHold`). With exactly two held entities and
  covering orders, the first let-go releases one of them and the second
  let-go releases the other (`Server.LetGoNotIdempotentForTwoHeld`).
- The `color` component doubles as the contention check, and `held_by` is
  written with it in the same `add_components` call.
- The query order is an input of each message, not of a whole run. Adding or
  removing `held_by` components may reorder the host's query, so
  `Server.Delivery` carries its own order.

## Model

| member | source | states |
|---|---|---|
| World.SpawnCubes | src/server.rs:74-82 | spawning adds exactly the listed ids as new entities, each a holdable, uncoloured, unheld cube, and leaves old entities untouched |
| World.SpawnCubesCount | src/server.rs:74-82 | with pairwise different fresh ids, the entity count grows by exactly the number of cubes spawned |
| World.BuildRandomCubes | src/server.rs:73-83 | spawns 30 pickable, unheld cubes, leaves every existing entity unchanged, and keeps both the invariant and "nothing is held" |
| World.NoneHeldIsValid | src/server.rs:73-83 | a scene in which no entity has a holder satisfies the invariant, and no player holds anything |
| Server.EvaluateHeldBy | src/server.rs:117 | the `held_by` query returns only (entity, holder) pairs that are in the table, and it returns every held entity that the iteration order visits |
| Server.FirstHeldBy | src/server.rs:119-121 | `find` returns nothing exactly when no pair has the sender as holder; otherwise it returns the entity of the first such pair |
| Server.FirstHeldByFollowsOrder | src/server.rs:117-121 | evaluating the query and then `find` picks the first entity of the iteration order held by the sender, and finds nothing exactly when no entity of the order is held by the sender |
| Server.ReleaseTarget | src/server.rs:117-124 | a let-go's target is held by the sender and is the first entity in the query order that the sender holds; there is no target exactly when the order lists no entity the sender holds, so with a covering order the sender holds nothing |
| Server.Step | src/server.rs:85-130 | a message never adds or removes entities and never changes a `holdable` tag; "held implies coloured" and "held implies holdable" are both preserved |
| Server.UnauthenticatedIgnored | src/server.rs:89-95 | a message whose sender has no user id, or no client entity, leaves the world unchanged |
| Server.PickupWithoutHoldableHitIgnored | src/server.rs:98-104 | a pickup whose ray hits nothing, or hits an entity without `holdable`, leaves the world unchanged |
| Server.PickupOfColouredIgnored | src/server.rs:106-108 | a pickup of an entity that already has a colour leaves the world unchanged |
| Server.HeldEntityKeepsHolder | src/server.rs:106-108 | in a world where held entities are coloured, nobody's pickup can take a held entity, and its holder is preserved |
| Server.PickupTakes | src/server.rs:110-115 | a successful pickup makes the sender the holder and sets the colour to green; `holdable` and every other entity are unchanged |
| Server.PickupChangesIffPickable | src/server.rs:102-115 | an authenticated player's pickup changes the world if and only if the hit entity is holdable and uncoloured |
| Server.PickupIgnoresOrder | src/server.rs:97-115 | a pickup's outcome does not depend on the `held_by` query order |
| Server.LetGoIgnoresHit | src/server.rs:116-127 | a let-go's outcome does not depend on the raycast result |
| Server.LetGoWithoutHoldIgnored | src/server.rs:117-124 | a let-go from a sender who holds no entity leaves the world unchanged |
| Server.LetGoReleasesOne | src/server.rs:117-127 | a let-go from a sender who holds something clears the holder and colour of one entity the sender held and changes nothing else; that entity is pickable again |
| Server.LetGoDropsTarget | src/server.rs:117-127 | a let-go with an order listing every entity, from a player who holds something, changes the world, and the player afterwards holds exactly what they held before minus one entity they held |
| Server.LetGoIdempotentForSingleHold | src/server.rs:117-127 | for a sender who holds at most one entity, a second let-go changes nothing, with any raycast result and any query order, provided the first let-go's order lists every entity (or both let-gos use the same order) |
| Server.PlayerMayHoldTwo | src/server.rs:97-115 | one player can hold two entities at once: the handler does not limit a player to one |
| Server.LetGoNotIdempotentForTwoHeld | src/server.rs:117-127 | for every world in which a player holds exactly two entities and both let-gos' orders list every entity, the first let-go releases exactly one of them and the second changes the world again, leaving the player holding nothing |
| Server.ContestedPickupScenario | src/server.rs:106-127 | for a player A who holds nothing else and a pickable entity O: A picks up O; B's pickup of O is a no-op; after A lets go with a query order listing every entity, O is pickable and unheld; B's next pickup makes B the holder; each message may see a different query order |
| Server.PickupThenLetGoRestores | src/server.rs:110-127 | a let-go undoes a pickup: for a player who held nothing, the pickup followed by the let-go restores the original world exactly, for any pickup query order and any let-go query order that lists every entity |
| Server.Run | src/server.rs:88 | handling a sequence of messages, each with its own raycast result and query order, keeps the set of entities and every `holdable` tag |
| Server.RunPreservesValid | src/server.rs:110-127 | any sequence of messages keeps a valid world valid |
| Client.SendInteraction | src/client.rs:4-17 | with no active camera nothing is sent; otherwise exactly one message is sent, carrying the requested intent and the camera's ray |
| Client.OnFrame | src/client.rs:21-35 | an unfocused frame sends nothing; a pickup is sent exactly when the left button went down, and a let-go exactly when it came up (focus and a camera given); when both are sent, the pickup comes first |
| Client.ClickWithinFrameOrder | src/client.rs:27-34 | a frame with both a left press and a left release sends the intents pickup, then let-go |
| Client.NonLeftButtonsSendNothing | src/client.rs:27-34 | a frame whose button edges do not involve the left button sends nothing |
| Session.PlayFrame | src/client.rs:27-34 | the server handles one frame's messages without changing the entity set, and the world stays valid |
| Session.UnfocusedFrameChangesNothing | src/client.rs:22-24 | an unfocused frame leaves the server's world unchanged |
| Session.PressPicksUp | src/client.rs:27-29 | pressing the left button over a pickable entity makes the player its holder and colours it green, and nothing else changes |
| Session.ReleaseLetsGo | src/client.rs:30-34 | releasing the left button while holding something releases one held entity, and nothing else changes |
| Session.PressThenReleaseRestores | src/server.rs:106-127 | a press in one frame and a release in the next frame the server handles restore the world, for a player who held nothing, whatever the press frame's query order, given a release-frame order that lists every entity |
| Session.ClickWithinFrameRestores | src/client.rs:27-34 | for a player who held nothing, over a pickable entity, with a release order listing every entity: a press and a release in the same frame restore the world, because the pickup is handled before the let-go |

## Left out

- `apply_force_to_held_entities` (src/server.rs:132-182) is left out. It is floating-point vector and quaternion arithmetic around the host's `add_force`.
- `build_floor`, `build_shute`, `rain_spheres`, `listen_for_players` and `main` are left out. They are scene setup and host wiring. None of them writes `holdable` or `held_by`, so none of their entities can be picked up or held. `build_floor` does write `color` (red), which an entity of the table may carry; that does not matter because the floor is not holdable. Timed removal of spheres is done by the host.
- Cube positions, colliders and meshes are left out, and so are the random spawn positions.
- The physics raycast and the camera's ray construction are host calls. They appear as oracle inputs.
- The colour is a vector of four floats. Only its presence and the green constant matter, so it is modelled with reals.
- Unreliable delivery is not modelled. A dropped message is the same as that message being absent from the sequence given to `Server.Run`.
- The Session lemmas assume that a frame's messages reach the server in sending order, back to back, and that `Session.PressThenReleaseRestores`'s release frame is the next frame the server handles from anyone. `send_server_unreliable` (src/client.rs:16) promises neither; if a frame's let-go arrives before its pickup, the entity stays held.
- Cross-callback tick ordering is not modelled.
- Disconnect handling is left out. The code has none: a `held_by` that names a departed player is never cleared.
- The React files `src/App.tsx` and `src/components/Droppable.tsx` are left out. They are an unrelated drag-and-drop page.
- Server.LetGoReleasesOne: names some entity the sender held, not which one. The code picks the first match in the host's query order, which it leaves unspecified. `Server.ReleaseTarget` and `Server.FirstHeldByFollowsOrder` state the first-match rule.
- Session.PlayFrame: the messages of one frame share one raycast result and one query order. A frame sends at most one pickup, the only message that reads the raycast result (`Server.LetGoIgnoresHit`). It also sends at most one let-go, the only message that reads the query order (`Server.PickupIgnoresOrder`).

# A Dafny model of the Bowmaster game core

This project models the logic at the centre of a small pygame game:

- the engine of `moteur.py`: a `Scene` of named rooms ("salles"), each an ordered list of objects, and the once-per-frame update pass over the current room;
- the rock-paper-scissors rule of `chifoumi.py`, which decides who shoots first;
- the three-level counter of `level_manager.py`;
- the sampled arrow trajectory of `physics.py` and the hit test of `utils.py`;
- the player's keyboard moves and gravity in `player.py`.

Each source file is one module: `Moteur`, `Chifoumi`, `LevelManager`, `Physics`, `Utils` and `Player`. `Sequences` holds the order-preserving selection that both the tag query and the end-of-pass compaction of `moteur.py` perform.

## How the scene is modelled

Python lists and objects are shared by reference, and the update pass depends on that. `Scene.actualiser` fetches the current room's list once. It then walks that list object by index, re-reading its length at every step. Each object's own `actualiser` may append to that list, kill objects, create rooms or switch rooms while the walk is going on. So the scene value holds two stores:

- `objets`: every object created so far, addressed by a `Ref`;
- `listes`: every room list created so far.

`salles` maps a room name to its current list. The subset type `Monde` states three facts:

- every room names a stored list, and every reference is to a stored object. Python guarantees that a dict value or a list element is a live object. `Scene`'s own methods store only lists as rooms, and `lier` puts only objects in them;
- no two rooms share a list. Python does not guarantee this: `Scene`'s own methods keep it, since `nouvelle_salle` and the compaction always store a new list. But `salles` is a public dict, and code holding the scene could make two names share one list.

An object's own `actualiser` is a parameter of type `Comportement`: a function from the scene and the object to the new scene or a fault. It has two constraints:

- its result is again a `Monde`;
- the stores never shrink, as no Python object is freed while it is referenced.

`ActualiserDeBase(dt)` is the behaviour of the two classes `moteur.py` defines: `Objet` does nothing, `Entitee` moves. `Engendrer(modele)` is an example behaviour that creates an object and binds it into the current room at every update.

`Parcours` defines the pass recursively:

- visit position `i` of the iterated list in the scene the earlier visits left;
- then go on from `i + 1` of that list as it now is.

`Actualiser` is the loop, and its contract says that it computes `Parcours` followed by the compaction.

## Behaviour of the update pass

What the code does, and does not do, around the pass:

- The pass does not snapshot the room. Objects appended to the iterated list during the pass are visited in the same pass. `Moteur.Actualiser` ensures this for every behaviour that only appends.
- There is no room-switch guard. After the loop, the room that is current at that moment is compacted, even if an object switched rooms during the pass.
- There is no `updatable` flag, and `filtrer` returns dead objects too.
- `nouvelle_salle` silently replaces an existing room. `changer_salle` accepts a name that has no room. An unknown room surfaces later as a `KeyError`, modelled as `Err(SalleInconnue(name))`.

## Model

| member | source | states |
|---|---|---|
| `Moteur.Nouvelle` | moteur.py:16-20 | a fresh scene has exactly one room, "defaut"; it is empty and it is the current room |
| `Moteur.NouvelObjet` | moteur.py:71-76 | a new object is alive, untagged, at the given depth, and has nothing to move |
| `Moteur.NouvelleEntitee` | moteur.py:105-109 | a new entity is alive, untagged, at depth 1, at the given position, with zero velocity |
| `Moteur.NouveauImmobile` | moteur.py:105-115 | a freshly built object or entity is left where it is by an update, whatever `dt` is |
| `Moteur.Creer` | moteur.py:71-76 | a new object gets a reference different from every existing object's; no room, list or current name changes |
| `Moteur.AjouterEtiquette` | moteur.py:78-80 | the tag is in the object's tag set afterwards, no other tag is added or removed, and liveness, body and depth are unchanged |
| `Moteur.AjouterEtiquetteIdempotent` | moteur.py:78-80 | adding the same tag twice is the same as adding it once |
| `Moteur.Tuer` | moteur.py:82-84 | the object is dead afterwards and nothing else about it changed |
| `Moteur.Deplacer` | moteur.py:111-115 | an entity's x grows by dx·dt and its y by dy·dt; its velocity, tags and liveness are kept; a plain object is left as it is |
| `Moteur.DeplacerNLineaire` | moteur.py:111-115 | n updates by dt move an object as far as one update by n·dt |
| `Moteur.DeplacerComposition` | moteur.py:111-115 | a step by dt1 then dt2 equals one step by dt1 + dt2: the motion does not depend on how time is cut into frames |
| `Moteur.Filtrer` | moteur.py:33-49 | an unknown room is a KeyError; otherwise an object is in the result iff it is in the room and carries the tag, alive or not |
| `Moteur.FiltrerEnOrdreDeSalle` | moteur.py:42-49 | the k-th result is the object at the k-th tagged position of the room: the result is in room order |
| `Moteur.FiltrerIgnoreLaVie` | moteur.py:44-46 | killing any object changes no query result |
| `Moteur.Lier` | moteur.py:51-57 | an unknown room is a KeyError; otherwise the room keeps its list, which becomes its old contents followed by the object; no other list changes and no list is created; the room map, the objects and the current name are unchanged |
| `Moteur.LierPuisFiltrer` | moteur.py:43-57 | after binding a tagged object into a room, the room's query returns the old result followed by that object |
| `Moteur.TroisLiesEnOrdre` | moteur.py:43-57 | three tagged objects bound one after another into an empty room are returned by its query in bind order |
| `Moteur.SalleParDefautEstActuelle` | moteur.py:39-56 | with no room argument, `filtrer` and `lier` act on the current room |
| `Moteur.NouvelleSalle` | moteur.py:59-60 | the name now maps to an empty room, replacing any room of that name; other rooms, the current name and every previously stored list are unchanged |
| `Moteur.NouvelleSalleVide` | moteur.py:44-60 | a room just created or replaced answers every query with nothing, and binding into it leaves exactly that object in it |
| `Moteur.ChangerSalle` | moteur.py:62-63 | only the current name changes, to the given name, whether or not such a room exists |
| `Moteur.Compacter` | moteur.py:30-31 | the room current after the loop, read again, is replaced by the subsequence of its live objects in the same order; other rooms keep their contents; an unknown current room is a KeyError |
| `Moteur.CompacterIdempotent` | moteur.py:30-31 | compacting again with no object dying in between removes nothing |
| `Moteur.Actualiser` | moteur.py:22-31 | an unknown current room is a KeyError; otherwise the result is the compaction of the scene that calling the behaviour on each position of the iterated list, in turn, produces (`Parcours`), or that pass's fault; a behaviour that only appends gets every position of the iterated list visited once, in order, including objects appended during the pass; a passive behaviour gets the room visited as it was and leaves it holding exactly its live objects, in order |
| `Moteur.ActualiserDeBaseDeplaceLaSalle` | moteur.py:22-31 | one frame of the built-in behaviour moves every object by dt once for each time it occurs in the current room, and not at all if it is not in the room; the room then holds its live objects in order, and the rooms are unchanged |
| `Moteur.EngendrerAjouteSeulement` | moteur.py:51-57 | a behaviour that creates objects and binds them into the current room only appends to lists, so `Actualiser`'s clause for such behaviours applies to it |
| `Moteur.EngendrerSansFin` | moteur.py:27-28 | when every object, including those it spawns, binds a new object into the current room at each update, a non-empty room never finishes its pass; Python loops forever, and the model stops with `PasseInterminable` |
| `Moteur.TirerAjouteSeulement` | moteur.py:51-57 | a behaviour where only shooters create and bind a projectile only appends to lists |
| `Moteur.TirDuTireur` | moteur.py:51-57 | a shooter's update stores its projectile under the next free reference and appends it to the current room's own list; the room map and the current name are unchanged |
| `Moteur.UnTireurUnProjectile` | moteur.py:27-28 | a room holding one shooter, whose projectiles do not shoot, finishes its pass with the list [shooter, projectile]. With `Actualiser`'s clause for appending behaviours, the projectile bound during the pass is visited in that same pass |
| `Moteur.ActualiserDeBasePassif` | moteur.py:86-115 | the built-in behaviour (plain objects do nothing, entities move) never fails, never touches rooms and never changes liveness |
| `Sequences.Keep` | moteur.py:43-47 | the selection loop keeps exactly the elements that pass the test, and never more elements than it was given |
| `Sequences.KeepIsSelection` | moteur.py:43-47 | the selection is, in order, the elements at the positions that pass the test |
| `Sequences.KeepIdempotent` | moteur.py:31 | selecting a second time with the same test keeps everything |
| `Chifoumi.ChoicesDistinct` | chifoumi.py:4 | `CHOICES` has three distinct elements |
| `Chifoumi.RandomChifoumi` | chifoumi.py:13-14 | the drawn choice is a member of `CHOICES` |
| `Chifoumi.RandomChifoumiCoversChoices` | chifoumi.py:13-14 | every member of `CHOICES` can be drawn |
| `Chifoumi.DetermineWinner` | chifoumi.py:16-23 | the result is "draw", "player" or "enemy"; it is "draw" iff both choices are equal; rock beats scissors, paper beats rock, scissors beat paper |
| `Chifoumi.DetermineWinnerIsCyclic` | chifoumi.py:16-23 | on the three choices the rule is a cycle: the choice at index i beats the one at (i + 2) mod 3 and loses to the other |
| `Chifoumi.DetermineWinnerAntisymmetric` | chifoumi.py:19-23 | for two different valid choices, the first wins iff it loses when the arguments are swapped |
| `Chifoumi.EachChoiceBeatsOneLosesOne` | chifoumi.py:19-23 | each valid choice beats exactly one choice and loses to exactly one |
| `Chifoumi.UnknownChoiceLoses` | chifoumi.py:17-23 | a string outside `CHOICES` is not rejected: against "rock" it gives "enemy" in either position |
| `LevelManager.Init` | level_manager.py:4-12 | a new manager is at level 1 of 3, with the goal line at x = 750, and within its bounds |
| `LevelManager.NextLevel` | level_manager.py:20-24 | the answer is true iff a level remained; on true the level went up by exactly one, on false nothing changed; 1 <= level <= max is preserved |
| `LevelManager.CheckLevelComplete` | level_manager.py:17-18 | a complete level has the player's right edge at or past the goal line; an incomplete one has its left edge short of it |
| `LevelManager.CompleteAtSpawn` | level_manager.py:17-18 | for a player just placed at x, the level is complete iff x is at or past the goal line |
| `LevelManager.CompleteIsMonotone` | level_manager.py:17-18 | a player of the same width further right has completed the level too |
| `LevelManager.NoCompletionFromAfar` | level_manager.py:17-18 | a player whose centre is more than 5 pixels short of the goal line has not completed the level after one frame, whatever the keys |
| `LevelManager.GoalLineOfInit` | level_manager.py:12-18 | for a new manager, completion means centre x >= 750, and a step right never undoes it |
| `LevelManager.AdvanceStops` | level_manager.py:20-24 | n calls of `next_level` from a valid state reach min(level + n, max) |
| `LevelManager.AdvanceFromInit` | level_manager.py:4-24 | from a new manager, n calls reach level min(1 + n, 3), and `next_level` answers true exactly for the first two calls |
| `Physics.GetTrajectoryPoints` | physics.py:11-19 | the result has at most max(steps, 0) points; the i-th point is the sample at time i * 0.1; every point has y <= 600; when fewer than steps points come back, the next sample has y > 600 |
| `Physics.DefaultSteps` | physics.py:11-19 | with the default of 50 steps, at most 50 points come back, and fewer only when the next sample is past the floor |
| `Physics.TakeWhileNotFilter` | physics.py:16-17 | once a sample is below the floor, no later sample is returned, even one back above it |
| `Physics.TrajectoryPrefixStable` | physics.py:12-19 | for one trajectory, the result for a number of steps is a prefix of the result for any larger number |
| `Utils.DetectCollision` | utils.py:1-5 | the result is true iff some point is in the rectangle; an empty sequence gives false |
| `Utils.AnyInsideMonotone` | utils.py:2-4 | appending points never turns a hit into a miss |
| `Utils.AnyInsidePermutation` | utils.py:2-5 | the answer does not depend on the order of the points |
| `Player.NewPlayer` | player.py:7-14 | the rectangle's middle of bottom edge is at the given point; health 100, vertical speed 0, on the ground |
| `Player.HandleInput` | player.py:16-23 | q moves x by -5 and d by +5; y never changes; z on the ground sets the speed to -10 and leaves the ground; z in the air does nothing |
| `Player.BothKeysCancel` | player.py:17-20 | q and d together leave x where it was |
| `Player.ApplyGravity` | player.py:25-31 | the bottom never ends below 550; the speed grows by 0.5 and the player moves by the new speed unless that reaches the floor, in which case it is on the floor, stopped and grounded, and only then |
| `Player.Update` | player.py:33-35 | a frame of input and gravity never leaves the player below the floor, and moves x as the input says |
| `Player.StandingIsStable` | player.py:25-35 | without a jump, a player standing on the floor stays standing |
| `Player.JumpArcStep` | player.py:25-31 | before the 38th frame of a jump, one frame of gravity keeps the player airborne on the arc |
| `Player.JumpArc` | player.py:21-31 | after k <= 38 frames of a jump from the floor, the speed is -10 + k/2 and the bottom is k(39 - k)/4 above the floor |
| `Player.JumpLands` | player.py:21-31 | on the 39th frame of gravity after a jump from the floor, the player is standing on the floor again |

## Left out

- main.py: the pygame event loop, the menu, drawing and turn sequencing are input/output plumbing.
- jeu.py: the window, the clock and `delta_time` read the wall clock. `dt` is a parameter of `ActualiserDeBase`.
- joystick.py: its angle and power come from `hypot`, `atan2`, `cos` and `sin` on mouse positions. That is floating-point trigonometry and mouse input.
- enemy.py: `tirer` is two `random.randint` draws; the rest is drawing.
- objets.py: its two subclasses only draw and print. Any such subclass is covered by the `Comportement` parameter.
- Physique/physique lancer.py: a standalone plotting script.
- Image loading, fonts, `draw`, `draw_background`, `draw_health_bar` and the display loop of `run_chifoumi` are calls into pygame.
- `compute_trajectory`: its cosine, sine and floating-point formula are a function parameter. Sample times `i * 0.1` are exact reals, without floating-point rounding.
- `Rect.collidepoint` is a predicate parameter. Its exact edge convention is pygame's.
- Player: pygame stores rectangle coordinates as integers, so adding a half-pixel speed to `rect.y` is rounded. The model keeps `y` and `velY` as exact reals. `Player.JumpArc` and `Player.JumpLands` describe that exact arithmetic, not the rounded one.
- Floating point in general: positions, velocities and `dt` are reals.
- The `jeu` back-references of `Scene` and `Objet` are not modelled. Their one use in the core is `Entitee.actualiser` reading `self.jeu.dt`, which is the `dt` parameter of `ActualiserDeBase`. `z_pos` is stored, but the core never reads it.
- Moteur.Actualiser: Python loops forever when objects keep appending to the room they are iterated from. The model stops with `Err(PasseInterminable)` once `limite` objects have been visited and one more remains. This also cuts off a finite pass longer than `limite`, for example a passive room of `limite + 1` objects, which Python completes. The contract's promises for finished passes assume the budget is large enough.
- Moteur.Actualiser: when an object's own `actualiser` raises, the model returns only the fault. Python leaves the scene in whatever state it reached.
- Moteur.Actualiser: when the pass stops early, `boucle` is not described. The result is the fault that `Parcours` reaches.
- Comportement: a behaviour must return a `Monde`. So an object that rebinds `salles` so that two room names share one list is not modelled.
- An object's own `actualiser` sees the scene and its own reference. A Python object that keeps a reference to a room list across frames and mutates it later is not modelled.

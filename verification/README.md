# A two-faction exercise over an event pipeline, verified

This project models the services that play a two-faction grid exercise over a messaging layer, and proves what they
promise each other. The services share no code: each reimplements the rules it needs. The main results are therefore
about independently written code agreeing, about every run of a protocol, and about loops that refine a plain
statement of what they compute.

The parts, by component:

- **Words and map** (`Keys`, `Sorting`, `World`, `State`, `Validating`): strings and their order, cells and their text
  keys, kinds, orders, the map and the state, and the two checks that decide whether a map and a state are valid.
- **exercise, the rules** (`Moves`, `Chance`, `Fire`, `Resolution`, `Umpire`, `Rounds`, `Observing`): the specification
  of simultaneous moves with refusal, pursuit, fights, burial, statuses and captures; the class `Board`, which does all
  of it in place, drawing from a seeded source; observations and verdicts; and one round as a whole. `Replaying` and
  `Telling` say what a round is by the state before it, its draws and its orders alone, and that these settle it.
- **exercise, over a run** (`Conservation`, `Capturing`, `Skirmishing`, `Exercising`): what damage records account for,
  when holders change, the drawn start, and the service around the rules with its history and its trace of events.
- **operations** (`Terrain`, `Search`, `Route`, `Planning`, `Sending`, `Maneuver`, `Crossing`): breadth-first search over
  a tree that grows with it, the planning loop and what it orders, and the theorem that exercise obeys every order a
  plan issues, with exactly when it does not.
- **intelligence** (`Fusion`, `Assessing`) and **courier's checker** (`TheaterCheck`, `Reconciling`): a faction's
  picture and the desk that keeps it, and the independent checker that reconciles assessments with the record of play.
  `Believing`, `Hearing` and `Converging` prove the two against each other over every delivery, and `Remembering` says
  where everything in a picture comes from.
- **command** (`Deciding`, `Distancing`, `Command`, `Steady`, `Redirecting`): the decision engine, as a specification by
  passes over claims and as the class `Plan` that fills it in step by step; that deciding is idempotent, so redirects
  nobody when repeated, and its targets reachable and apart. `Facing`, `Tasking` and `Choosing` say what each element is
  told by the picture alone, and what is left to nobody.
- **command to operations** (`Directing`, `Suppressing`, `Enduring`): the two services' rows, and the theorem that
  leaving out unchanged directives loses nothing, instantiated with the history exercise records.
- **operations to exercise** (`Obeying`): what operations issues is recorded, played and obeyed by the service's round.
- **messaging** (`Consuming`, `Taking`, `Delivering`, `Lifetimes`, `Brokering`, `Pipeline`, `Messaging`): the consumer
  as a class, as steps that keep an invariant, and over every run; the broker's window; the outbox, relay, broker and
  inbox as one step protocol with crashes; and the outbox's own methods, each a path of that protocol.
- **events and reactor** (`Events`, `Codec`, `RoundTrip`, `HeaderOrder`, `Reacting`): the CloudEvents binary content mode
  of section 3.1 of the CloudEvents HTTP Protocol Binding v1.0.2, printed and parsed; and the reactor's lock-protected
  steps.

How it is written. Code that changes state step by step is a method or a class with loops, proved against a predicate
or function of what it computes; the lemmas are about those. A seed stands for any function from what its source was
asked so far to what it answers, so results hold of every generator. The clock is a parameter that never goes back.
Locks and transactions are single steps, and interleavings are arbitrary sequences of them. A history is any sequence
of rounds each resolved from the one before under any orders, so what is proved of histories holds of every run the
exercise service records (`Exercising.RoundIsRecorded`).

Where the code and its comments part, the model follows the code:

- "No two elements of a faction share a cell" constrains movers alone: elements already together may stay together.
- A retreater that falls in pursuit still stands in its cell during the fights, and may be listed there with nothing
  before and nothing after.
- Plans are documented to lose no move to an illegal order. The exercise counts ends by a text of faction and cell, which
  two factions' names can make ambiguous; the model counts by that text, and `Crossing.ObeyedExactly` says exactly for
  which names the promise holds.
- Progress is documented as never the holder's; the state's check allows it in a start, and one round removes it
  (`Capturing.ProgressIsStreak`).
- Headers that spell one name in two ways, neither lower-case, can decode differently by map order;
  `HeaderOrder.OrderShowsExactly` says exactly which.
- A wait shorter than a millisecond is told as a millisecond, so a member may wake that much late.

## Model

| member | source | states |
|---|---|---|
| Maneuver.PlansAreObeyed | services/operations/domain/operations/route/route.go:183-267 | From any valid settled state of two factions neither of whose names with "@" after it begins the other's, when each faction's orders are what `Plan` returns for its own elements under any standing, the round's moves refuse none of them: every ordered element ends at its order's last step and every other element stays where it stands. |
| Maneuver.PlanIsObeyed | services/operations/domain/operations/route/route.go:183-267 | One faction's plan is obeyed whatever the other faction orders: under any orders that tell its elements what its plan does, every element of it ends at its planned order's last step or where it stood, from any valid settled state of factions whose names are apart. |
| Sending.PlanTold | services/operations/domain/operations/route/route.go:200-267 | A plan starts from each element's allowance, the first one or two steps of the shortest walk to its target or the one step of its retreat; pass by pass, all who would end where another ends outside their own fights give up a last step, but one that stays or the least by ID, until none would; exactly those left with steps, or staying to pursue, are ordered, with the retreat and pursue marks as their status and rule say. |
| Crossing.ObeyedExactly | services/operations/domain/operations/route/route.go:195-199 | Between two named factions plans are obeyed from every valid settled state and under any standing if and only if neither name with "@" after it begins the other: the exact condition of the promise that no plan loses a move to an illegal order. |
| Crossing.PlanIsRefused | services/exercise/domain/exercise/rules/resolve.go:178-190 | For any two names of which one with "@" begins the other, a valid settled state and standings in which a planned move into a free cell is refused, as the count of ends takes an element of the other faction for one of its own. |
| Maneuver.StepsAreAllowed | services/exercise/domain/exercise/rules/resolve.go:205-229 | The cells operations' search may step to are exactly the ones exercise's walk accepts: two separately written rules of one step agree on every valid map. |
| Maneuver.PlanOwned | services/exercise/domain/exercise/service.go:328-345 | Exercise's filter of recorded orders by owner drops none of the orders a faction's plan issues. |
| Route.Path | services/operations/domain/operations/route/route.go:104-134 | The breadth-first search returns a shortest walk, the first in up, right, down, left, gate order among those of its length, and nothing exactly when no walk exists. |
| Route.Trace | services/operations/domain/operations/route/route.go:122-128 | Following the search's `prev` map back from the target rebuilds the tree branch in travel order. |
| Search.BranchPreferred | services/operations/domain/operations/route/route.go:104-134 | In a grown search tree every branch is the preferred walk to its cell: none is shorter, and none of its length comes earlier in step order. |
| Search.TreeComplete | services/operations/domain/operations/route/route.go:104-134 | A search that empties its queue has found every cell some walk reaches. |
| Search.PreferredUnique | services/operations/domain/operations/route/route.go:104-108 | Shortest length and step order leave one walk to choose: any search meeting the two rules returns the same path. |
| Terrain.ComputeSteps | services/operations/domain/operations/route/route.go:137-157 | The loops over the four sides and the gates list the open neighbours, then the far ends of the gates at the cell. |
| Terrain.StepsAreTheLegalSteps | services/operations/domain/operations/route/route.go:137-157 | A cell is listed as a step exactly when it is an open neighbour in the same sector or the far end of a gate there. |
| Planning.Plan | services/operations/domain/operations/route/route.go:200-267 | The whole planning loop issues the orders of its specification: first paths by standing and status, shortened together until no two own elements end in one cell without a fight. |
| Planning.PlanElement | services/operations/domain/operations/route/route.go:203-231 | One element's first path: an engaged element may take one step out of its fight, a recovering or pursuing one none, and the others as many as their kind moves. |
| Planning.RefuseOnce | services/operations/domain/operations/route/route.go:232-255 | One pass of the refusal loop over a map of cells shortens exactly the refused paths, whatever order the map is walked in. |
| Planning.KeepApart | services/operations/domain/operations/route/route.go:232-255 | The refusal loop ends, at the fixpoint of simultaneous refusal. |
| Planning.ApartLeavesNoneShared | services/operations/domain/operations/route/route.go:195-199 | At the fixpoint no mover ends in a cell, free of own fights, where another own element ends, and every path is a prefix of the one it began as. |
| Planning.PlanIgnoresListing | services/operations/domain/operations/route/route.go:200-267 | The plan depends on which elements there are and not on the order they are listed in. |
| Umpire.Board.Move | services/exercise/domain/exercise/rules/resolve.go:158-199 | The in-place move leaves every element where the specification of simultaneous refusal puts it, and records the engaged elements that left with the cells they left. |
| Umpire.Board.StopRefused | services/exercise/domain/exercise/rules/resolve.go:178-190 | The refusal loop over all movers ends at the fixpoint. |
| Umpire.Board.CountEnds | services/exercise/domain/exercise/rules/resolve.go:179-183 | The per-round count of ends under each text of faction and cell. |
| Moves.Walk | services/exercise/domain/exercise/rules/resolve.go:205-229 | The steps of an order are walked until one is not allowed, and there are no more of them than the kind moves. |
| Moves.WalkStaysStandable | services/exercise/domain/exercise/rules/resolve.go:205-229 | A walk that is accepted ends inside a grid and off its obstacles. |
| Moves.EndsLeaveNoneRefused | services/exercise/domain/exercise/rules/resolve.go:178-190 | When refusal stops, nobody is refused, and each element is at the end of its order or where it stood. |
| Moves.MovesIgnoreListing | services/exercise/domain/exercise/rules/resolve.go:158-199 | Moving a rearranged list of elements gives the rearranged result: refusal does not depend on the order of elements. |
| Moves.EndKeysMeet | services/exercise/domain/exercise/rules/resolve.go:180-183 | Two factions' texts for the ends of moves can coincide if and only if one faction's name followed by "@" begins the other's. |
| Moves.CrowdedIsJoined | services/exercise/domain/exercise/rules/resolve.go:180-188 | Counting by text never misses an element that ends where another of its faction does, and, when the factions' names are apart, counts no other. |
| Moves.EndsLeaveNoneJoined | services/exercise/domain/exercise/rules/resolve.go:184-190 | When refusal stops no mover ends in an uncontested cell that another element of its faction ends in, whatever the names. |
| Moves.OwnEndKeys | services/exercise/domain/exercise/rules/resolve.go:180-183 | Within one faction the text key of an end names one cell. |
| World.KeyInjective | services/exercise/domain/exercise/rules/world.go:75-80 | A cell's text is unique to the cell, whatever characters a sector's name holds. |
| World.KeyOrderTotal | services/exercise/domain/exercise/rules/resolve.go:480-483 | Sorting by the text of a cell is a total, strict order, so a tie broken by it is broken. |
| Umpire.Board.Shoot | services/exercise/domain/exercise/rules/resolve.go:238-251 | Nobody fires without a target; otherwise each shooter in turn draws an aim below 100 and, only below 50, one of the targets and a damage of 20 to 60, from a source whose answers depend on what it was asked: the draws are those the source gives in that order, and the damage to each operator is the sum of the hits drawn on it. |
| Umpire.Board.Wound | services/exercise/domain/exercise/rules/resolve.go:272-276 | Wounds are applied to the struck operators alone, and health never falls below 0. |
| Umpire.Board.Exchange | services/exercise/domain/exercise/rules/resolve.go:364-368 | Both sides' operators, those alive before either side is wounded, draw one side after the other; then every operator's health is what it had less the sum of the hits drawn on it, and never below 0. A side loses at most the top damage for each enemy operator. |
| Fire.WoundedByLast | services/exercise/domain/exercise/rules/resolve.go:238-276 | Applying the tally of a list of hits is striking them one after another: accumulating damage first and wounding later loses nothing. |
| Fire.HitsTake | services/exercise/domain/exercise/rules/resolve.go:232-276 | A list of hits takes between nothing and the top damage for each hit. |
| Replaying.FieldedExactly | services/exercise/domain/exercise/rules/resolve.go:253-267 | A side fields exactly the living operators of its elements, each once, in the order of the elements' IDs and then of each element's own list. |
| Replaying.ShotsHurt | services/exercise/domain/exercise/rules/resolve.go:238-276 | In an exchange a living operator loses health if and only if some shot with an aim below 50 picked it; each such shot takes 20 and what its shooter drew above it, at most 40, or all the operator has. |
| Replaying.ResolvesOneWay | services/exercise/domain/exercise/rules/resolve.go:103-126 | A round resolves the same way each time it is resolved: the state, the seed's source of numbers for the round and the orders settle the next state, the whole record, both observations and the verdict. |
| Telling.PursuitTold | services/exercise/domain/exercise/rules/resolve.go:302-342 | The retreats reported are one for each element that left a contested cell, and the pursuers of each are exactly the enemies that stood in that cell, stayed there, were not recovering and whose last order pursues. |
| Telling.FightingTold | services/exercise/domain/exercise/rules/resolve.go:344-380 | The fights reported are one for each cell that holds both factions after the moves, and each lists exactly the elements in its cell. |
| Telling.StatusTold | services/exercise/domain/exercise/rules/resolve.go:403-418 | A survivor is recovering if and only if it left a contested cell this round, and otherwise engaged if an enemy survives in its cell and ready if none does. |
| Telling.ObservedTold | services/exercise/domain/exercise/rules/observe.go:31-69 | A faction observes all its elements, exactly the enemies and objectives within one cell of one of its squads or two of one of its scouts, along both axes and in one sector, and each objective's holder. |
| Telling.VerdictTold | services/exercise/domain/exercise/rules/judge.go:27-60 | An exercise is over if and only if a faction has no element, or one holds every objective, or the limit is reached; the winner is the faction alone alive, or else the one that holds more objectives, or nobody. |
| Moves.MovesByOrder | services/exercise/domain/exercise/rules/resolve.go:158-229 | Nobody moves but by its last order, when it is not recovering, every step is legal, there are no more than its kind takes, and in a contested cell the order is a one-step retreat; it ends at the last step, and outside a fight no other of its faction ends there. |
| Moves.LawfulIsFollowed | services/exercise/domain/exercise/rules/resolve.go:158-199 | Such an order is followed whenever its last step is into a fight, or nobody else stands or is ordered to end where the text of the end is the same. |
| Umpire.Board.Volley | services/exercise/domain/exercise/rules/resolve.go:310-342 | Every retreater, in ID order, is fired on by the enemies that stood in its cell at the start of the round, were not recovering, stayed there and were ordered to pursue; each report holds what its exchange took. |
| Umpire.Board.Fight | services/exercise/domain/exercise/rules/resolve.go:348-380 | Every cell both factions stand in, in the order of keys, is fought once, and its report lists each element with what it had and what it has left. |
| Umpire.Board.Bury | services/exercise/domain/exercise/rules/resolve.go:385-401 | Operators at 0 are dropped, strength becomes the sum of what is left, and the elements with nobody left are removed and reported as losses, both lists in ID order. |
| Umpire.Board.Settle | services/exercise/domain/exercise/rules/resolve.go:406-418 | The status of every element after a round: engaged in a contested cell, recovering after a retreat, ready otherwise. |
| Umpire.Board.TakeObjectives | services/exercise/domain/exercise/rules/resolve.go:427-458 | Holders, progress and the reports of captures and advances, objective by objective. |
| Rounds.Resolve | services/exercise/domain/exercise/rules/resolve.go:112-126 | A round from any valid state, under any orders and any draws, leaves a valid settled state with the two factions' observations and the verdict of that state. |
| Rounds.ResolvedIsValid | services/exercise/domain/exercise/rules/resolve.go:385-458 | Whatever a round does, from a valid state it leaves one that passes the state's own check and in which every status fits its cell. |
| Conservation.DamageConserved | services/exercise/domain/exercise/rules/resolve.go:278-401 | Over a round each element's records chain, each beginning with what the one before left; they sum to the strength and the operators it lost; and it is reported lost exactly when it did not survive. |
| Conservation.FireAccounts | services/exercise/domain/exercise/rules/resolve.go:310-380 | The records of the pursuits and the fights account for every change of health between the moves and the burial. |
| Fire.ChainAddsUp | services/exercise/domain/exercise/rules/resolve.go:278-301 | Records that chain sum to the difference of their ends. |
| Capturing.HolderChangesOnStreak | services/exercise/domain/exercise/rules/resolve.go:420-458 | Over any run from any valid start, a faction becomes an objective's holder in a round exactly when, not holding it, it has just ended the full count of consecutive rounds alone on it, counted on from what the start had stored. |
| Capturing.ProgressIsStreak | services/exercise/domain/exercise/rules/state.go:46-52 | Over any run from any valid start, the progress stored on an objective its faction does not hold is the number of consecutive rounds that faction has ended alone there, below the count that captures; every faction with such a streak has it stored; and after a round progress is never the holder's. |
| Capturing.CapturesAreChanges | services/exercise/domain/exercise/rules/resolve.go:420-458 | A round reports a capture exactly for each objective whose holder it changed, with the holder before and the holder after. |
| Capturing.RunStaysValid | services/exercise/domain/exercise/rules/resolve.go:112-126 | Every state of every run is valid, keeps its map and factions, and is settled from the first round on. |
| Observing.ObserveFor | services/exercise/domain/exercise/rules/observe.go:31-59 | An observation holds the faction's own elements, the enemies in sight of them and the objectives in sight of them, each list in key order. |
| Observing.SeenBy | services/exercise/domain/exercise/rules/observe.go:62-69 | The search for an element that sees a cell. |
| Observing.ObservationUnique | services/exercise/domain/exercise/rules/observe.go:31-59 | A state, a faction and a round have one observation. |
| Observing.Judge | services/exercise/domain/exercise/rules/judge.go:27-59 | The verdict: elimination, all objectives, then the limit by objectives held, with the draw when they are even, and no verdict before. |
| Validating.ValidateMap | services/exercise/domain/exercise/rules/world.go:112-161 | The map's check lists a fault exactly when the map breaks the rule it names, and none exactly when the map is valid. |
| Validating.CheckLink | services/exercise/domain/exercise/rules/world.go:165-185 | A gate's link passes exactly when it leads to a gate of another sector that leads back. |
| Validating.ValidateState | services/exercise/domain/exercise/rules/state.go:70-151 | The state's check lists a fault exactly when the state breaks the rule it names, and none exactly when the state is valid. |
| Validating.NoFaultIsValid | services/exercise/domain/exercise/rules/world.go:106-161 | The rules the check walks one at a time are together exactly the validity every other result assumes of a map. |
| Validating.NoStateFaultIsValid | services/exercise/domain/exercise/rules/state.go:61-151 | The rules of a state's check are together exactly the validity every round keeps. |
| Skirmishing.Skirmish | services/exercise/domain/exercise/rules/skirmish.go:31-92 | For any draws that are permutations and any two distinct named factions, the start passes the state's check, is settled and is symmetric about the centre. |
| Skirmishing.DrawObjectives | services/exercise/domain/exercise/rules/skirmish.go:40-62 | The drawn objectives are distinct, on the middle rows, as many as drawn, and each one's mirror image is among them. |
| Skirmishing.SkirmishIsValid | services/exercise/domain/exercise/rules/skirmish.go:31-92 | Mirrored objectives and recruits drawn from one permutation make a valid, settled, symmetric start. |
| Fusion.Fuse | services/intelligence/domain/intelligence/fusion/fusion.go:158-211 | The new picture: own elements replaced, contacts in sight at age 0, others remembered until they are out of date, lost sight of or replaced, objectives refreshed where seen, and the explored cells grown by sight. |
| Fusion.Alert | services/intelligence/domain/intelligence/fusion/fusion.go:221-248 | An alert adds an objective, or replaces its belief when the alert's round is later, and otherwise changes nothing. |
| Fusion.Explore | services/intelligence/domain/intelligence/fusion/fusion.go:252-281 | Exploring adds exactly the cells inside the known grids that an own element sees. |
| Fusion.FusedUnique | services/intelligence/domain/intelligence/fusion/fusion.go:158-211 | A picture and an observation fuse to one picture. |
| Assessing.Desk.Observe | services/intelligence/domain/intelligence/service.go:85-98 | An observation is fused and issued with the next revision when the desk is open and its round is later than the picture's, and skipped otherwise. |
| Assessing.Desk.TakeAlert | services/intelligence/domain/intelligence/service.go:109-128 | An alert past the end is skipped and one that changes nothing neither saved nor issued; one that changes the picture is issued at once exactly when the picture already covers its round. |
| Assessing.Desk.Close | services/intelligence/domain/intelligence/service.go:133-144 | The conclusion sets the desk's end and issues nothing. |
| Assessing.StepKeepsOrder | services/intelligence/domain/intelligence/service.go:78-144 | Every step keeps the picture's lists in key order, the round and the revision from falling, and numbers each issue one above the last. |
| TheaterCheck.Check | courier/scenario/theatercheck.go:345-363 | The checker finds exactly the departures of an assessment from the recorded round: its own elements, its contacts, its objectives. |
| TheaterCheck.CheckContacts | courier/scenario/theatercheck.go:369-394 | The contact findings, and no others: an enemy in sight not reported, a report of one not in sight, a memory in sight or kept too long. |
| TheaterCheck.CheckObjectives | courier/scenario/theatercheck.go:401-438 | The objective findings, and no others: one in sight not reported or misreported, one never seen, and one out of sight reported as of this round. |
| Reconciling.FirstSightings | courier/scenario/theatercheck.go:284-302 | For each faction and objective, the first round that showed it. |
| Reconciling.LossAlerts | courier/scenario/theatercheck.go:306-322 | For each faction and objective, the rounds in which it was taken from that faction, and who took it. |
| Reconciling.LastAssessments | courier/scenario/theatercheck.go:221-231 | The last assessment issued for each faction and round. |
| Reconciling.CheckCoverage | courier/scenario/theatercheck.go:326-340 | The recorded rounds a faction never assessed, and no others. |
| Reconciling.Reconcile | courier/scenario/theatercheck.go:247-263 | All the checker reports of a run: exactly the inconsistencies of the assessments with the recorded history. |
| Hearing.IssuesDrawNone | services/intelligence/domain/intelligence/fusion/fusion.go:158-248 | Over any recorded history, and any delivery of genuine observations, loss alerts and conclusions, in any order and any number of times, every assessment a desk issues draws no finding from the independent checker. |
| Hearing.RunReconciles | courier/scenario/theatercheck.go:233-438 | For a whole run of the two desks the checker reports nothing but the rounds whose observation never arrived in order at its faction's desk. |
| Hearing.CoveredInOrder | services/intelligence/domain/intelligence/service.go:78-98 | A round is assessed exactly when its observation was delivered before that of every later round. |
| Hearing.RoundIsLatest | services/intelligence/domain/intelligence/service.go:85-98 | The picture's round is always that of the last observation the desk did not skip. |
| Hearing.RowsSound | services/intelligence/domain/intelligence/fusion/fusion.go:158-248 | After every delivery the picture is faithful to the history. |
| Believing.FaithfulDrawsNone | courier/scenario/theatercheck.go:345-438 | A picture that is faithful to the history draws no finding. |
| Believing.FusedFaithful | services/intelligence/domain/intelligence/fusion/fusion.go:158-211 | Fusing a later round's observation keeps a picture faithful. |
| Believing.AlertedFaithful | services/intelligence/domain/intelligence/fusion/fusion.go:221-248 | Taking an alert of a loss that happened keeps a picture faithful, in whatever order it comes. |
| Believing.BeliefWasTrue | services/intelligence/domain/intelligence/fusion/fusion.go:190-211 | Whatever a picture believes of an objective was so in the round it says it was seen. |
| Believing.LossIsTrue | services/exercise/domain/exercise/events.go:146-154 | A loss alert names the faction that holds the objective at the end of that round. |
| Remembering.ContactsRemembered | services/intelligence/domain/intelligence/fusion/fusion.go:158-216 | After any deliveries in any order a picture's contacts are exactly the enemies as last observed, no more than the contact rounds ago, that no observation taken since shows again and whose cell none has had in sight. |
| Remembering.ExploredOnce | services/intelligence/domain/intelligence/fusion/fusion.go:252-284 | The explored cells are exactly those that an element in some observation taken had in sight inside its sector's grid; none is forgotten. |
| Remembering.BeliefsLatest | services/intelligence/domain/intelligence/fusion/fusion.go:158-247 | Each belief about an objective is what some observation taken or loss alert told, and as of the latest round any of them told of. |
| TheaterCheck.CleanIsBorneOut | courier/scenario/theatercheck.go:345-440 | An assessment the check finds nothing in is of a round on record, with the own elements and exactly the contacts of that round's observation, no contact remembered too long or in sight, every objective in sight reported with its holder, and every other belief told by an alert or seen before. |
| Converging.Converges | services/intelligence/domain/intelligence/fusion/fusion.go:190-248 | Any two deliveries that hear the same observations in order and the same set of alerts, permuted, repeated and interleaved as they may be, end in the same picture. |
| Converging.ShowsLatest | services/intelligence/domain/intelligence/fusion/fusion.go:190-248 | Every objective known shows the report of the highest round among the observations heard and the alerts taken, aged to the picture's round, and every objective reported is known. |
| Command.Decide | services/command/domain/command/decide/decide.go:172-275 | The whole decision engine computes the decisions that the lemmas of `Facing`, `Tasking` and `Choosing` describe element by element: fights, reinforcement and engagement, then objectives to secure, cells to search and objectives to rescout, standing targets kept before new ones. |
| Command.Plan.Fight | services/command/domain/command/decide/decide.go:345-366 | The decisions of the elements in contact, which `Facing.FightsAsCounted` tells by the strengths in the cell, and the cells whose fight is held. |
| Facing.FightsAsCounted | services/command/domain/command/decide/decide.go:345-366 | In what is decided, an engaged element with an enemy seen in its cell this round retreats if and only if it is a scout or three times its side's strength there is less than twice the enemy's, and a neighbour is open, unoccupied and clear of enemies seen; it then goes to such a neighbour. Otherwise it keeps its cell, and pursues if and only if its side is at least as strong, and engages if not. Strengths are sums over the elements in the cell. Its contact is the strongest enemy seen there. Nobody else retreats or pursues. |
| Facing.NeverBothRetreat | services/command/domain/command/decide/decide.go:345-366 | Two squads of the two sides engaged in one cell, each decided on a picture that shows the state as it is: never both retreat; when one does, the other pursues; when neither does, each pursues if and only if its side is at least as strong, so at least one does. |
| Facing.FusedShows | services/intelligence/domain/intelligence/fusion/fusion.go:158-216 | A round's observation fused into a picture of earlier rounds shows the faction's elements as they are, as seen now only enemies that stand so, and every enemy in a cell of its own. |
| Facing.RetreatsFarthest | services/command/domain/command/decide/decide.go:434-475 | Whatever clearance some free neighbour has from every known contact of the sector outside the fight, the cell retreated to has too. |
| Tasking.ReinforcesNearest | services/command/domain/command/decide/decide.go:477-490 | An element in no fight of its own reinforces if and only if it is a squad, ready or recovering, and a cell its side holds in a fight is within four steps; it goes to the nearest such cell against the strongest enemy seen there. |
| Tasking.EngagesNearest | services/command/domain/command/decide/decide.go:492-515 | One that has no fight to reinforce engages if and only if it is a squad and a contact weaker than it is within three steps: the nearest, of those as near the least by ID. |
| Tasking.GoalsSuit | services/command/domain/command/decide/decide.go:190-262 | Whoever is sent to secure goes to a known objective its faction is not believed to hold, and is no scout with an unexplored cell in reach; whoever searches goes to a cell unexplored; whoever rescouts to an open objective it does not stand on; and each has a path there. |
| Tasking.NoWorkLeft | services/command/domain/command/decide/decide.go:190-270 | Nobody is left idle beside work: an element that neither fights nor secures suits no objective that nobody is sent to secure, one that does not search either suits no cell that nobody is sent to search, and one that holds suits no objective that nobody is sent to rescout. |
| Choosing.TargetsArePicked | services/command/domain/command/decide/decide.go:205-262 | A target newly given is the element's pick of those no other has by the rule: the nearest objective; the nearest unexplored cell more than two from every search target, or the nearest of all when none is; the objective seen longest ago and then the nearest; lesser keys break ties. |
| Choosing.StandsToSecure | services/command/domain/command/decide/decide.go:205-222 | An open objective that an element free to secure stands on is secured by one that stands on it. |
| Command.Plan.Keep | services/command/domain/command/decide/decide.go:373-388 | Standing targets kept while they are still wanted, unclaimed and within reach, in element order. |
| Command.Plan.ChooseObjectives | services/command/domain/command/decide/decide.go:211-219 | Objectives chosen nearest first among the unclaimed, element by element. |
| Command.Plan.ChooseCells | services/command/domain/command/decide/decide.go:231-245 | Search targets chosen nearest first, away from those already chosen when some such cell is left. |
| Command.Plan.StalestFor | services/command/domain/command/decide/decide.go:393-407 | The objective seen longest ago among those in reach and unclaimed, ties by distance and key. |
| Command.StrongestIn | services/command/domain/command/decide/decide.go:422-434 | The strongest contact seen this round in a cell, the lesser ID on a tie. |
| Command.RetreatFrom | services/command/domain/command/decide/decide.go:443-475 | The open neighbour free of own elements and of contacts seen this round that is farthest from the nearest contact outside the fight, the first in step order on a tie. |
| Command.Plan.Reinforce | services/command/domain/command/decide/decide.go:481-491 | For a squad free to move, the nearest held fight in reach, with the strongest enemy there. |
| Command.Plan.EngageFor | services/command/domain/command/decide/decide.go:496-515 | For a squad, the nearest weaker contact in reach, the lesser ID on a tie. |
| Command.NearestIn | services/command/domain/command/decide/decide.go:519-531 | The nearest admissible cell, the lesser key on a tie, whatever order the map is walked in. |
| Distancing.Distances | services/command/domain/command/decide/decide.go:535-549 | Command's distances are exactly the lengths of operations' paths, and name exactly the cells operations finds a path to. |
| Steady.DecidedAgain | services/command/domain/command/decide/decide.go:172-275 | Deciding again on the same assessment with its own output as standing returns the same decisions. |
| Redirecting.RedirectsNobody | services/command/domain/command/service.go:127-143 | Deciding again on one picture over the decisions made, however its distances are measured, returns those decisions, and so `redirects` is false. |
| Redirecting.DecidedOnce | services/command/domain/command/service.go:88-106 | Once a picture has been decided on, the same picture again under any revision issues nothing and changes nothing of the row but its revision. |
| Steady.TargetsAreRoutable | services/command/domain/command/decide/decide.go:172-275 | Every target decided on is one operations finds a path to, as long as command measured it. |
| Steady.DecidedInReach | services/command/domain/command/decide/decide.go:172-275 | Every decision's target meets its rule's own condition: a retreat one step off, a fight within range, an open objective, an unexplored cell, a known objective. |
| Steady.DecidedApart | services/command/domain/command/decide/decide.go:172-275 | No two elements are sent to one target to secure, none to search, and none to rescout. |
| Steady.ChosenNone | services/command/domain/command/decide/decide.go:195-267 | An element is left without a target of a kind only when every target that fits it is claimed. |
| Directing.RedirectsAny | services/command/domain/command/service.go:127-143 | The comparison through a map of previous decisions reports a change exactly when some decision's course differs from the last told. |
| Directing.Director.Decide | services/command/domain/command/service.go:88-106 | An assessment of a later revision is decided on; the decisions, round and revision are stored; a directive with the next sequence is issued exactly when some element is redirected. |
| Directing.Director.Close | services/command/domain/command/service.go:111-122 | The conclusion only sets the end. |
| Directing.Operator.Assign | services/operations/domain/operations/service.go:86-117 | A directive of a later sequence is merged into the standing orders of an open operation; orders are issued if and only if it is of the round last acted on, the next round is within the limit and the plan changed, and then they are the new plan, for the round after the last. |
| Directing.Operator.Maneuver | services/operations/domain/operations/service.go:126-145 | A later round's elements replace the last and standing orders of lost elements are dropped; an open operation issues if and only if that round is later than the last and the next is within the limit, and then exactly the plan for those elements, for the next round. |
| Directing.Operator.Close | services/operations/domain/operations/service.go:149-160 | The conclusion closes the operation and changes nothing else. |
| Directing.LaterIsDecided | services/command/domain/command/service.go:88-143 | An assessment of a later revision, of no round after the end, is decided on, and the decisions are issued under the next sequence if and only if one of them gives an element another rule or target than it last had, where one not told had been told to hold. |
| Directing.IssuesFollow | services/operations/domain/operations/service.go:86-198 | Over any run of directives, rounds and ends, every issue is for the round after the last that operations acted on, within the limit, and carries the plan for that round's elements under the targets standing; and every round acted on ahead of the limit is issued for. |
| Obeying.ManeuverIssues | services/operations/domain/operations/service.go:126-145 | Told of the round an exercise is at, an open operation of the same limit issues, for the next round, the plan for the elements as observed. |
| Obeying.RecordedIsPlayed | services/exercise/domain/exercise/service.go:214-326 | Orders a running exercise takes for its next round are accepted, and are what the round then plays for every element of that faction, whatever the other faction records after them. |
| Obeying.IssueIsObeyed | services/operations/domain/operations/service.go:126-198 | An issue that reaches a running, settled exercise still at its round is accepted, and once the round is resolved, whatever the other faction recorded, every survivor of the faction stands where its issued order ends, or where it stood; the factions' names are apart. |
| Obeying.BothAreObeyed | services/exercise/domain/exercise/service.go:214-326 | Both factions' plans, recorded for the next round one after the other, are obeyed by the service's round: every survivor stands where its own faction's plan ends. |
| Obeying.LaterIsSettled | services/exercise/domain/exercise/service.go:292-326 | Every state an exercise stands in after its first round is settled, so the results above need that of its start alone. |
| Suppressing.NothingLost | services/command/domain/command/service.go:72-143 | Suppressing unchanged directives loses nothing: with live elements only ever fewer, under any reordering, repetition or loss of directives in which the highest sequence issued is applied, operations' standing for every live element is command's current decision. |
| Suppressing.StaysCurrent | services/command/domain/command/service.go:88-143 | After every assessment the last directive issued says, for every live element, the course of the decisions stored. |
| Suppressing.StaysFollowed | services/operations/domain/operations/service.go:86-145 | After every arrival operations stands by the directive with the highest sequence it has applied. |
| Suppressing.SequencesDiffer | services/command/domain/command/service.go:88-106 | Directives are numbered in the order they are issued, no two alike. |
| Enduring.DeskKeepsCommand | services/intelligence/domain/intelligence/service.go:78-144 | What the result above assumes of assessments holds of those a desk issues over any recorded history: they list the living, and a higher revision is no earlier round. |
| Enduring.ViewLists | services/operations/domain/operations/service.go:126-145 | What it assumes of operations' observations holds of those of any recorded history: they list the living. |
| Enduring.HistoryLosesNothing | services/command/domain/command/service.go:72-143 | So it holds of any recorded history, a desk hearing it, command on any of the desk's issues and operations on any of command's directives and the history's observations, each in any order and repetition. |
| Enduring.HistoryShrinks | services/exercise/domain/exercise/rules/resolve.go:382-401 | Over any recorded history a faction's elements alive only ever become fewer. |
| Exercising.Service.Start | services/exercise/domain/exercise/service.go:86-119 | Only a created exercise starts; it records round 0, observes for both factions and concludes at once when its start is already decided; any other start is refused and changes nothing. |
| Exercising.Service.Transition | services/exercise/domain/exercise/service.go:137-160 | Pause and resume move between running and paused, and refuse from any other phase. |
| Exercising.Service.Stop | services/exercise/domain/exercise/service.go:169-191 | An exercise not yet over is halted with a verdict; one that is over refuses. |
| Exercising.Service.RecordOrders | services/exercise/domain/exercise/service.go:214-248 | Orders are recorded for a named faction's later round within the limit; late orders and repeats are ignored; the bad ones are refused. |
| Exercising.Service.Resolve | services/exercise/domain/exercise/service.go:292-326 | A running exercise plays its next round under orders that tell each faction's elements the last order that faction recorded for that round, and nothing where it recorded none; it records the round, raises its signals in order and ends when its verdict says so. |
| Exercising.OwnOrders | services/exercise/domain/exercise/service.go:328-345 | The orders kept are those of each faction for its own elements, the first faction's first, in the order recorded. |
| Exercising.Service.RaiseLost | services/exercise/domain/exercise/events.go:146-154 | One loss is raised for each capture from a holder, in order. |
| Exercising.RoundIsRecorded | services/exercise/domain/exercise/service.go:292-326 | A resolved round extends a recorded history to a recorded history: the premise of every result over histories holds of what the service records. |
| Exercising.ConcludesLast | services/exercise/domain/exercise/service.go:86-326 | The trace holds at most one conclusion and only last, and holds one, with the verdict, exactly if the exercise had started and has ended; the history has no round past the limit; a running exercise is below its limit. |
| Exercising.ResolvedTold | services/exercise/domain/exercise/service.go:292-326 | A resolved round is one more than the last and within the limit, the history's next entry with the new state and both observations of it, and it concludes the exercise if and only if the verdict on that state is over. |
| Exercising.TraceInOrder | services/exercise/domain/exercise/service.go:86-326 | What an exercise raises is in order: round by round, and in each its start or resolution, then its losses, then both observations, and last the conclusion. |
| Exercising.TraceHolds | services/exercise/domain/exercise/events.go:129-160 | The trace of a history holds exactly the signals of its rounds. |
| Exercising.AlertsAreLosses | services/exercise/domain/exercise/events.go:146-154 | The losses in an exercise's trace are exactly the captures from a holder in its history: the alerts intelligence takes as genuine. |
| Exercising.ObservationsAreViews | services/exercise/domain/exercise/events.go:105-139 | The observations in an exercise's trace are exactly the recorded views of its rounds. |
| Consuming.Consumer.Take | messaging/memory/consumer.go:65-92 | A take expires what is overdue, claims the due retry of least due time, else the next matching event past the cursor, else says how long to wait and what will wake it. |
| Consuming.Consumer.Settle | messaging/memory/consumer.go:98-109 | An outcome counts only while its own delivery is current after expiry; it ends the event or has it redelivered after the retry delay. |
| Consuming.Consumer.Expire | messaging/memory/consumer.go:113-120 | Exactly the overdue deliveries are taken back, each redelivered now or, when its deliveries are spent, given up. |
| Consuming.Consumer.Redeliver | messaging/memory/consumer.go:124-131 | An event is queued again unless its deliveries are spent, in which case it is done. |
| Consuming.Consumer.NextDue | messaging/memory/consumer.go:136-152 | The wait is to the earliest retry or deadline, at least a millisecond, and 0 exactly when there is none. |
| Consuming.Consumer.WakeAll | messaging/memory/consumer.go:56-59 | Whoever was told to wait is woken. |
| Taking.RetriesFirst | messaging/memory/consumer.go:65-95 | While a retry is due a take gives one, and of those listed the one due longest, of equals the first. |
| Taking.NextAsked | messaging/memory/consumer.go:65-95 | With nothing due and nothing overdue a take gives the first event from the cursor of a type the subscription asks for and moves the cursor past it, and has a member wait only when there is none. |
| Reacting.RunsOnceStarted | core/reactor/reactor.go:98-140 | Started ahead of any shutdown, a reactor runs its source and is running until the source returns or a shutdown begins. |
| Delivering.StepKeepsValid | messaging/memory/consumer.go:65-152 | Every publish, take and settle, in any order with a clock that does not go back, keeps the consumer's invariant. |
| Lifetimes.RunStaysValid | messaging/memory/consumer.go:44-152 | Every state of every run of a consumer, from its subscription on, keeps the invariant, whatever is published, taken and settled and in whatever order. |
| Lifetimes.AlwaysOnePlace | messaging/memory/consumer.go:10-42 | In every run each sequence between the start and the cursor is in exactly one of skipped, in flight, queued again and done, and queued at most once. |
| Lifetimes.StaysDone | messaging/memory/consumer.go:98-131 | In every run what is done stays done. |
| Lifetimes.EndsInStep | messaging/memory/consumer.go:98-131 | An event that a step ends was ended by its own outcome before that delivery's deadline, or had all its deliveries. |
| Lifetimes.DoneForReason | messaging/memory/consumer.go:98-131 | In every run an event is done because an outcome ended it in time or because all the deliveries it is allowed were made. |
| Lifetimes.AlwaysBounded | messaging/memory/consumer.go:122-131 | In every run, with a positive delivery bound, no event is taken more often than the bound, and a log of n events at most n times the bound in all. |
| Delivering.InTimeCounts | messaging/memory/consumer.go:94-109 | An outcome settled before its delivery's deadline always counts. |
| Delivering.LateIsIgnored | messaging/memory/consumer.go:94-120 | An outcome at or after its deadline changes nothing but what expiry changes. |
| Delivering.NoneEarly | messaging/memory/consumer.go:65-92 | No retry is taken before it is due, and no event in flight is taken again before its deadline. |
| Delivering.WaitIsRight | messaging/memory/consumer.go:133-152 | A member told to wait has seen the whole log; its wait is 0 exactly when nothing is outstanding, and otherwise runs to the earliest retry or deadline, or a millisecond. |
| Delivering.ActsAfterWait | messaging/memory/consumer.go:133-152 | A take once a limited wait is over acts: it claims an event, or takes back overdue deliveries all of which were the last their events were allowed. |
| Lifetimes.NothingMissed | messaging/memory/source.go:24-53 | In every run, from a state with nothing to take before a time and until that time comes, either a member is woken or there is still nothing to take and nobody has taken anything. |
| Lifetimes.WaitIsKept | messaging/memory/source.go:24-53 | In every run a member told to wait is told a time no later than its wait, and until then or until it is woken nothing can be taken. |
| Delivering.QuietAfterWait | messaging/memory/consumer.go:65-92 | A take that tells a member to wait leaves a consumer with nothing to take before a time that is positive exactly when the wait is limited, later than now and no later than the wait's end. |
| Brokering.Broker.Publish | messaging/memory/broker.go:46-69 | An event is logged unless one of its identity was within the window; the window forgets what is old and remembers what is logged; every consumer is woken exactly when something is, and nothing else of any consumer changes. |
| Brokering.Broker.Subscribe | messaging/memory/broker.go:76-94 | A name subscribed again alike joins the same consumer, one subscribed differently is refused, and a new one starts at the end or the beginning of the log as it asks. |
| Brokering.PublishKeepsSpaced | messaging/memory/broker.go:41-69 | Two logged events of one identity are at least a window apart. |
| Brokering.PublishIsSend | messaging/memory/broker.go:46-69 | A publish on the clock is what the step protocol says of it: some events lapse from the window, and then the event is sent. |
| Messaging.Write | messaging/outbox/sink.go:22-38 | Events are inserted in order until the first that is invalid or whose source and ID are already in the outbox; a write fails only at such an event, and then of the rest none is inserted. |
| Messaging.StampAll | core/event/recorder.go:80-95 | Every raised event is given its ID, source and time, and all are valid or none is written. |
| Messaging.Emit | core/event/recorder.go:71-99 | A body that fails, a raise that fails or an invalid event writes nothing; otherwise the events are written stamped and in order, as far as the first already in the outbox, which fails the command. |
| Messaging.Transact | core/event/recorder.go:71-99 | The state change and its events are committed together or not at all. |
| Messaging.Next | messaging/outbox/relay.go:135-191 | The oldest free row is published and marked, or, failing at the claim, the decoding, the publish or the mark, left to be published again; a row that cannot be decoded publishes nothing. |
| Messaging.Pass | messaging/outbox/relay.go:124-132 | A pass that neither fails nor is cut short leaves every row published that no other relay holds, and without faults it takes exactly one turn for each row waiting. |
| Messaging.OldestRow | messaging/outbox/engine.go:27-31 | The row claimed is the oldest unpublished one no relay holds. |
| Messaging.ClaimEvent | messaging/inbox/inbox.go:49-58 | A consumer without a name is refused; otherwise a claim is the first exactly when the consumer's effect of the event has not been committed. |
| Messaging.Handle | messaging/inbox/inbox.go:40-58 | An acknowledged handling leaves exactly one effect; one that fails leaves nothing. |
| Messaging.ReachesSound | messaging/outbox/relay.go:135-191 | Whatever the outbox, relay and inbox methods do is a path of the step protocol, so every state they leave is sound. |
| Pipeline.StepKeepsSound | messaging/outbox/relay.go:135-191 | Every step of every interleaving of transactions, relays, broker and consumers, crashes included, keeps the protocol's invariant. |
| Pipeline.RunStaysSound | messaging/outbox/relay.go:135-191 | Every state of every run is sound. |
| Pipeline.NeverLost | messaging/outbox/engine.go:19-33 | A committed event stays unpublished in the outbox or is in the broker's log, for ever. |
| Pipeline.OnlyCommitted | core/event/recorder.go:63-99 | Every event in the broker's log was committed. |
| Pipeline.EffectOnce | messaging/inbox/inbox.go:40-58 | A consumer's effect of an event is applied at most once, exactly once when acknowledged, even after the deduplication window has lapsed. |
| Pipeline.OnceWithoutLapse | messaging/memory/broker.go:41-69 | While the window lasts an event is in the log once. |
| Pipeline.DistinctUnlessRepeated | messaging/memory/broker.go:41-69 | In every run an event is in the log twice if and only if one was sent while logged and out of the window. |
| Pipeline.LapseCanRepeat | messaging/memory/broker.go:41-69 | Once the window has lapsed an event can be in the log twice: a run that shows it. |
| Reacting.StepKeepsSound | core/reactor/reactor.go:98-219 | Every step of every interleaving of Start, the source's return, a reader of Err and Shutdown keeps the reactor's invariant. |
| Reacting.RunStaysSound | core/reactor/reactor.go:98-226 | Every state of every run is sound. |
| Reacting.ClosedExactlyOnce | core/reactor/reactor.go:123-137 | Each channel is closed at most once, exactly once by the time the goroutine or the retirement is over, and nothing is sent on a closed one. |
| Reacting.ReportedOnce | core/reactor/reactor.go:141-211 | The source's failure is reported at most once, and exactly once when Shutdown outlives the drain, save the handler's own cancellation after the grace. |
| Reacting.NeverReadyAgain | core/reactor/reactor.go:213-219 | The reactor is not running, and so not ready, ever again once Shutdown begins, and a retired one never launches its source. |
| Reacting.Machine.Launch | core/reactor/reactor.go:98-139 | Start launches an idle reactor and refuses any other. |
| Reacting.Machine.Finish | core/reactor/reactor.go:125-137 | The goroutine's end keeps the failure for Shutdown when stopping, sends it on Err otherwise, and closes both channels. |
| Reacting.Machine.Stop | core/reactor/reactor.go:148-165 | Shutdown retires an idle reactor at once and begins to wait for any other. |
| Reacting.Machine.Report | core/reactor/reactor.go:188-209 | What Shutdown reports at the end of the drain: the unread failure, the grace that ran out, or the source's error, leaving out the cancellation it caused. |
| Events.Validate | core/event/event.go:40-60 | An event passes exactly when it has an ID, a source and a type and every extension's name is one. |
| Events.CheckName | core/event/event.go:62-75 | A name passes exactly when it is lower-case letters and digits, is not empty and is not reserved. |
| Codec.Encode | core/event/codec.go:21-47 | A valid event, and no other, is encoded: ce-specversion 1.0, ce-id, ce-source and ce-type always, ce-dataschema, ce-subject, ce-time and content-type exactly when the event has them, ce- and its name for each extension, one value each and no other header. |
| Codec.Decode | core/event/codec.go:54-112 | The event decoded has as its id, source, type, subject, schema, content type, time and extensions what is read under those lower-case header names: their own first value, or without one that of another spelling, or nothing; a version read other than 1.0, a time that does not parse, or a missing id, source or type is an error. |
| RoundTrip.RoundTrips | core/event/codec.go:21-112 | For every valid event, decoding what was encoded returns it up to UTC time and empty against nil, for every order of the headers and every recasing of their names, given that time formatting and parsing invert. |
| RoundTrip.DecodeInverts | core/event/codec.go:54-112 | The same in each single order of reading. |
| HeaderOrder.OrderNeverShows | core/event/codec.go:54-112 | What `Decode` returns does not depend on the order of the headers when headers of one name, however spelled, set it alike, or when some time does not parse, which is then what it reports. |
| HeaderOrder.OrderShows | core/event/codec.go:58-70 | Otherwise two orders read different drafts, and different events if both are events. |
| HeaderOrder.OrderShowsExactly | core/event/codec.go:58-70 | What the headers read as is one in every order if and only if a time does not parse or headers of one name set it alike. |
| RoundTrip.OrderCanShow | core/event/codec.go:58-70 | Headers for which the result itself differs by order: two spellings of one name, neither lower-case. |

## Left out

- Fusion.Fuse: requires that an observation lists no contact and no objective twice, as exercise's observations do (`Observing.ObserveFor`), where the code takes any list.
- Fusion.Explore: the explored cells are a set; their order and the list's sharing are not modelled.
- TheaterCheck.Check: which findings there are, not their order or wording; the same holds of the other checks' lists and of the faults of the two `Validate` checks.
- Reconciling.Reconcile: the scenario around the checker, the beliefs and truth notes it also renders, and its waiting are text and timing.
- Umpire.Board.Shoot: the source of numbers is any function of what it was asked; PCG's own numbers and the statistics of hits are not modelled.
- Skirmishing.Skirmish: an initial is a name's first character, where the code takes its first byte.
- Exercising.Service.Resolve: the due clock of rounds, the listing of due exercises and the lock's reread are not modelled; a call is one transaction.
- Exercising.Service.Start: creating, naming, finding and pacing an exercise are not modelled.
- Assessing.Desk.Observe: loading, saving and claiming the row are one step; so for the other services' commands.
- Directing.Operator.Assign: payload checks before the command are not modelled; so for the other services' commands.
- Consuming.Consumer.Take: a member's loop is the separate steps take and settle, in any interleaving with other members; waiting on a channel is the wake counter.
- Brokering.Broker.Subscribe: checking and normalising a subscription are not modelled.
- Messaging.Next: that a row that cannot be decoded stops the relay, its timers and its last drain are not modelled.
- Codec.Decode: lower-casing of header names is ASCII, where the code folds other letters too; lists under one name keep their first value alone.
- Reacting.Machine.Stop: contexts, timers and handlers are steps that may come at any time; goroutine scheduling and fairness are not modelled.
- Validating.ValidateState: holders and progress are keyed by cells, so a key that is no cell's text is not modelled.
- State.State: integers are unbounded; health, strength, rounds and counters stay far below 64 bits in every service.
- Elements, contacts, pictures and orders are one datatype each, where every service declares its own with the same fields and passes JSON between them.
- The network and database clients (messaging/nats, messaging/postgres, every database.go and its SQL), HTTP handlers, configuration, migrations, the lifecycle coordinator and the rest of courier have no hard property of their own here. Row claims, marks and inbox inserts are taken as their Go comments state them.
- Messages other than those modelled, throttling, permanent errors' wrapping and subscription names would add only easy members.

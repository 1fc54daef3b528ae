# Elevator dispatch: a verified model

The program controls n elevators that share their hall orders over a broadcast network. Its
documentation promises that no order is lost, that an elevator does not stop "just to be safe",
that the door lamp is never on while the car moves, and that neither the number of floors nor the
number of elevators is hard-coded. This project models the three machines that have to deliver on
that, and proves what they deliver. The number of floors is an arbitrary constant N of at least
two, an address is an arbitrary string, and the set of nodes is an arbitrary finite map.

**One car.** `Typedef` holds the decisions of typedef.go, `Cars` what each event does to a car's
state, door timer, door lamp and motor command, and `CarRun` what holds over all its runs, under any
buttons, confirmations, restore replies and protocol messages. `Service` proves that an own order is
served within 2(N-1) floor arrivals, whatever else comes in, by a rank that every arrival lowers and
nothing raises. `Motors` is the simulated motor with its sensors; `ClosedLoop` puts the controller on
it and proves that it stays inside the shaft, and `Rigs` does so with the objects themselves.

**The cost estimate.** `CostWalk` verifies `LengthToOrder` against a recursive walk, characterises
exactly when its loop ends, and gives the walk a closed form in at most three straight legs.
`Prediction` and `Detour` compare the estimate with what the controller really drives. `Cost`
proves that the assignment is the unique least (cost, address) pair, whatever order the map is
walked in and whatever the sort swaps.

**The order handshake.** `Nodes` says what each message and timer does to a node, `Network` runs n
nodes over a network that may lose, duplicate, delay and reorder, and `EventLoops` is the event loop
itself as an object with its variables: one turn of it is a step of the system, and a whole run of
turns makes it the node of a run, so that what is proved of runs holds of the object. `Handshake`
proves exclusive confirmation and agreement for rounds of a button anywhere in a run, after any number
of earlier orders for it; `Stale` shows that the four ways in which an earlier order may not take
effect in a round are each necessary, and `Disagreement` that one assignee per origin is. `Views`,
`Conservation`, `Restoring`, `Records` and `Origins` prove what holds over all runs: that no order is
dropped, who may be named in an order, what is repeated and watched, what nodes know of each other and
what comes back to one that asks for its state. `EndToEnd` joins the handshake with the car: from initialisation on, a confirmed order that its elevator has taken is served and reported by it
within the bound, unless a message for that very order takes it away. `WiredNodes` connects the nodes
of the system to the simulated motor.

## What the proofs found

- `LengthToOrder` loops for ever on exactly one family of inputs: a state that is moving without a
  direction, asked about the floor it is at, for a hall button of an inner floor
  (`CostWalk.Diverges`). No reachable state is in it (`Views.AssignmentAlwaysDefined`).
- The estimate is a true bound on the controller's run except for an idle car that has orders above
  and is asked to go below: the walk starts downward (typedef.go:309-312), the controller goes up
  first (typedef.go:445-447). `Detour.EstimateHoldsIff` says exactly when the bound survives even
  then; for every target that is answered on the way down it fails by at least two floors. Both cases
  are reachable (`Detour.SentAwayHappens`, `Detour.CoveredHappens`).
- A car can be left standing with an own order and no timer, until another button or message wakes
  it. `CarRun.Parks` lists the events that do this, and `CarRun.NeverParkedIff` proves that there are
  no others: a restore reply with an order for the floor at which the car stands, when neither has
  one elsewhere (main.go:181-187, the door closes and no direction is found); a confirmation that
  names another elevator than the matrix does, which makes the order this car's own without waking it
  (main.go:302 keeps the assignee, main.go:303 goes by the message); and a done or reassign message
  that takes the car's orders for all other floors away and leaves it one for its own. Each has its
  run (`CarRun.NewCarParksOnRestore`, `NewCarParksOnConfirm`, `NewCarParksOnMessage`).
- Agreement needs every origin to stay with one assignee within a round. It does not if the button is
  pressed twice before its order is confirmed and the costs change in between:
  `Disagreement.TwoAssigneesBreakAgreement` is such a run of the system from initialisation, and it
  ends with a car parked with the order. `Handshake.AgreementIff` says exactly which elevators then hold
  the order for whom.
- Messages of an earlier order for the same button can break exclusive confirmation, in exactly four
  ways: an acknowledgement of an earlier new order; an acknowledgement that an earlier order is done,
  which main.go:440-441 collects in any status; a late report that it is done; and a late reassignment.
  Any other leftover, new orders and confirmations included, is harmless
  (`Handshake.ExclusiveConfirmation`); one of these, delivered once, is enough (`Stale`).
- A node that learns of an order only by its confirmation starts no timer for it (main.go:286-289), so
  it will not notice if that order fails (`Origins.LearnedIsUnwatched`); one that is itself named in
  such a confirmation takes no notice at all (`Origins.MissesOwnConfirmed`).
- A car that opens its door for a confirmed order while it stands with a direction publishes its state
  before it records the open door (main.go:322-324); `Conservation.OpeningPublished` has the exact
  condition under which the others learn of it.
- The simulated motor does not survive a turn between floors: it arrives at the wrong floor or ends the
  process (`Motors.TurnBetweenFloors`). `ClosedLoop.MotionSafety` shows that it is never asked to.
- The timer armed at main.go:425 announces that it resends the done message, and sends
  EvAckOrderDone. The model follows the code.

## Model

| member | source | states |
|---|---|---|
| Typedef.ExtendedElevState.ScanOrdersAbove | src/typedef/typedef.go:375-388 | the scan from the top finds an own order exactly if some floor strictly above the car holds one |
| Typedef.ExtendedElevState.ScanOrdersBelow | src/typedef/typedef.go:390-403 | the scan from the bottom finds an own order exactly if some floor strictly below the car holds one |
| Typedef.ExtendedElevState.FindExternalOrdersAtCurrentFloor | src/typedef/typedef.go:466-485 | the list holds all of the car's own hall orders at its floor, as they stand in the matrix, and nothing else |
| Typedef.NextDirectionPointsAtWork | src/typedef/typedef.go:430-453 | STOP if and only if no own order is above or below; any other answer points at an own order and keeps the direction while work is left in it |
| CostWalk.TerminatesIff | src/typedef/typedef.go:294-351 | iterating the Go loop reaches its end if and only if the input is not in the one diverging family; a state whose moving implies a direction never is |
| CostWalk.EventuallyReturns | src/typedef/typedef.go:315-350 | where the loop ends, the two numbers it returns are those of the recursive walk |
| CostWalk.WalkClosedForm | src/typedef/typedef.go:315-350 | the bouncing walk is one, two or three straight legs; its stops are the floors on them that hold an own order |
| CostWalk.EstimateClosedForm | src/typedef/typedef.go:294-351 | the same of `LengthToOrder` as a whole, from last floor, direction, target, type and "orders beyond the target" |
| CostWalk.EstimateBounds | src/typedef/typedef.go:294-351 | at most 2(N-1) floors, and never more stops than floors |
| CostWalk.LengthToOrder | src/typedef/typedef.go:294-351 | the loop over floor, direction and counters returns the recursive walk's pair, with the two degenerate starts it has |
| Cost.LessTotal | src/cost/cost.go:49-54 | `Less` is total and asymmetric on (cost, address) pairs |
| Cost.LessTransitive | src/cost/cost.go:49-54 | `Less` is transitive, so with the above a strict total order |
| Cost.CheapestUnique | src/cost/cost.go:29-32 | at most one elevator is the cheapest |
| Cost.Swap | src/cost/cost.go:56-58 | the two elements trade places, everything else stays |
| Cost.Sort | src/cost/cost.go:29-30 | sorting in place through `Less` and `Swap` alone yields a sorted permutation |
| Cost.SortedHeadIsCheapest | src/cost/cost.go:29-35 | the head of any sorted arrangement of the costs is the cheapest elevator |
| Cost.StringLessIff | src/cost/cost.go:53 | the order of addresses is that of a dictionary: up to some place they agree, and there the first ends or has the smaller character |
| Cost.AssignNewOrder | src/cost/cost.go:15-36 | the result is the active elevator for which twice the estimated floors and three times the stops are less than for every other active one, or as much with the address first in the dictionary; the error for none active, or, if that elevator has no address, the other error; the iteration order of the map does not matter |
| Cost.SameViewSameChoice | src/cost/cost.go:15-36 | two nodes with the same active set, the same states of its members and the same status and assignee of every order choose the same elevator |
| Cars.FloorReachedOwn | main.go:572-613 | a stop clears exactly the own orders of that floor, internal and hall; passing clears none |
| CarRun.PressRegisters | main.go:545-560 | a pressed internal button becomes an own order or opens the door right there |
| CarRun.StepSound | main.go:545-639 | every event, any confirmation, restore reply and protocol message included, keeps door, motor and timer coherent and the car in the shaft |
| CarRun.StaysAwakeIff | main.go:303-340 | a car that is not parked with work, nor will be when its door closes, stays so in one step if and only if the event is not one of those that park it |
| CarRun.RestoreParksIff | main.go:158-188 | a restore reply parks the car if and only if it stands, the reply has an order for its floor, and neither has one elsewhere |
| CarRun.ConfirmParksIff | main.go:302-340 | a confirmation parks the car if and only if it stands, the matrix gives it the order and the message another car, and it has no timer pending or the order is for its floor with none above or below |
| CarRun.NeverParkedIff | main.go:545-639 | over a run from initialisation, own orders always imply that the car is moving or its door timer is pending, and that it will not be left standing with them when the door closes, if and only if no event of the run is one of those that park it |
| CarRun.NewCarParksOnRestore | main.go:158-187 | two events after initialisation: a restore reply and the closing of the door leave the car parked with its order |
| CarRun.NewCarParksOnConfirm | main.go:302-342 | two events after initialisation: an order that awaits confirmation and one that names another elevator leave the car parked with it |
| CarRun.NewCarParksOnMessage | main.go:408-460 | nine events after initialisation: a car that stops on its way up, takes a call down there and loses its order above is left parked with it |
| CarRun.CoherentOverRuns | main.go:545-639 | over all runs, whatever is received: the motor does what the state says and a moving car has a next floor, the timer runs only at a standstill, the lamp is on only with the timer pending and the motor stopped; and as long as no message takes an own order away, a moving car has one strictly ahead |
| CarRun.RunInv | main.go:545-639 | as long as no message takes an own order away and no event parks the car, the whole invariant holds over runs; the estimate results are about such cars |
| CarRun.NoPointlessStops | main.go:572-612 | a car with work ahead that stops at a floor event clears an own order of that floor |
| CarRun.LeavesOnlyByService | main.go:572-639 | an own order of the car leaves only by a floor event at which the car stops there with the lamp on, or by a message that takes it away |
| CarRun.RestoreCanPark | main.go:181-187 | after a restore reply of the kind that parks, the car keeps the restored order, and once its door has closed it stands with no timer pending |
| Service.StepRank | main.go:545-639 | no event at all raises the rank of an order that stays own, and every floor arrival lowers it |
| Service.RankBounds | main.go:572-639 | the rank of an own order is between 1 and 2(N-1) |
| Service.BoundedService | main.go:572-639 | in any run with 2(N-1) floor arrivals a given own order leaves by the last of them: at the stop that serves it, unless a message takes it away first; whatever further orders, confirmations and replies come in |
| Prediction.QuietRunCost | main.go:572-639 | `ServeCost` counts exactly the arrivals and the intermediate stops of any undisturbed run up to the stop that serves the order |
| Prediction.QuietRunExists | main.go:572-639 | every own order has such a run |
| Prediction.FirstLegAgrees | src/typedef/typedef.go:305-313 | for every other floor the walk starts in the direction in which the car leaves, if and only if the car is not an idle one with orders above that is asked to go below |
| Prediction.EstimateBoundsRun | src/typedef/typedef.go:294-351 | unless the car is sent away like that, an order accepted at once and alone is served after at most the floors and intermediate stops that `LengthToOrder` gave beforehand |
| Detour.DetourTaken | src/typedef/typedef.go:430-453 | the arrivals and stops that a car so sent away really makes, in closed form: up to its highest order, down, and for a call up passed on the way, to its lowest order and up again |
| Detour.DetourIsLonger | src/typedef/typedef.go:309-312 | for a target answered on the way down, that is at least two floors more than estimated |
| Detour.EstimateHoldsIff | src/typedef/typedef.go:294-351 | for every state within the invariant and every button, the estimate bounds the run if and only if the car is not sent away or a condition on its own orders, stated before the call, holds |
| Detour.EstimateHoldsOnRunsIff | src/typedef/typedef.go:294-351 | the same equivalence for every undisturbed run of the controller |
| Detour.SentAwayHappens | src/typedef/typedef.go:309-312 | with three floors or more, a new car with the button of floor 2 pressed is such a car, and the estimate fails for floor 0 |
| Detour.CoveredHappens | src/typedef/typedef.go:309-312 | with four floors or more, a car reached by pressing three buttons is sent away and the estimate still holds |
| Views.RunOk | main.go:101-140 | in all reachable states of the system, on every node, each known elevator's record carries its own address and moves in some direction, active elevators are known, and every published state is like that |
| Views.AssignmentAlwaysDefined | src/cost/cost.go:22-28 | so in every reachable state the cost lookup never misses and every cost walk ends |
| Records.TimeIsLastHeard | main.go:103-136 | in every state of every run, a node has a record of exactly those it has had a sign of life of, with the clock reading of the last one |
| Records.LivenessView | main.go:685-699 | right after every pass over the elevators (tick, sign of life, backup) the active ones are exactly those whose last sign of life is at most three ticks of 100 ms and 10 ms old; between passes nothing changes |
| Handshake.RoundHolds | main.go:197-473 | the invariant of a round: who has acknowledged what in it, that an acknowledgement is given for one origin only and binds the slot, and that an awaiting node has collected such acknowledgements only |
| Handshake.ConfirmedMeans | main.go:238-272 | a confirmation in a round stands for an acknowledgement, given in that round, by every elevator of the origin's active set |
| Handshake.ExclusiveConfirmation | main.go:238-272 | within a round anywhere in a run, under loss, duplication and reordering, two origins that confirm at two steps of it had disjoint active sets |
| Handshake.AgreementIff | main.go:200-302 | from a confirmation to the end of its round, every elevator of the origin's active set holds the order, and for the confirmed assignee if and only if that is whose new order it acknowledged |
| Handshake.Agreement | main.go:280-302 | from a confirmation to the end of its round, every elevator of the origin's active set holds the order for that assignee, and none but the assignee as its own, as long as every origin keeps to one assignee |
| Handshake.ConfirmedMeansConfirmed | main.go:489-498 | every EvOrderConfirmed sent in a round, also a resent one, stands for a confirmation of the round by its sender, or comes from a timer that was pending before the round |
| Stale.StaleAckBreaks | main.go:238-243 | one acknowledgement from an earlier order, of a new order or of one done (main.go:440-441), lets two origins confirm that share an elevator |
| Stale.StaleDoneBreaks | main.go:408-412 | so does one late report that an earlier order is done |
| Stale.StaleReassignBreaks | main.go:456-460 | and one late reassignment of an earlier order |
| Disagreement.TwoAssigneesBreakAgreement | main.go:200-342 | a run of fourteen steps from initialisation: two elevators meet, a button is pressed twice with a changed choice, and within one round the node confirms one elevator while it holds the order for itself; then its car is parked with the order |
| Conservation.NextKeepsPending | main.go:197-473 | one event: an order that a node has, or has queued as new, stays so unless the node hears that it is done or its own car serves it |
| Conservation.OrderConserved | main.go:162-473 | the same over any stretch of any run, through reassignments, confirmations, duplicates, timeouts, repeated reports and restores |
| Conservation.DoneSource | main.go:303-333 | EvOrderDone comes only from a service at the sender's floor, or from the timer that repeats one |
| Conservation.DoneMeansServed | main.go:303-333 | every EvOrderDone ever sent names its sender as assignee, and at an earlier step that elevator stood at the floor with its door lamp on and served the order; when it did so on the confirmation, its door is recorded as open and its state published |
| Restoring.OneReply | main.go:158-188 | what one restore reply does to each internal and each hall order |
| Restoring.RestoreIsJoin | main.go:158-181 | after any sequence of replies the internal orders are the union, active hall orders are as before, an inactive one is active exactly if some reply offers it, and none is adopted for the asker itself |
| Restoring.RestoreOrderIndependent | main.go:158-181 | so two sequences with the same replies, in any order and with duplicates, give the same internal orders and the same active hall orders |
| Records.EventsPublish | main.go:551-639 | button, floor and door events publish the car's new state with the matrix, and every tick its state |
| Records.PublishedIsOwn | src/typedef/typedef.go:139-145 | whatever a node publishes as its state is its state after the event, or, on a confirmation, before it |
| Records.RecordWasPublished | main.go:127-136 | the state that a node has on record of another is one that the other published itself |
| Records.RequestsAreAnswered | main.go:142-153 | a node that is asked for the state of an elevator it knows replies |
| Records.RepliesAreTrue | main.go:142-153 | every restore reply on the network was sent by its responder when it knew the asker, with its matrix of that step and the asker's state of the last backup it had handled, which the asker had published before |
| Records.OwnStateComesBack | main.go:158-188 | after handling a reply an elevator has, besides its own, the internal orders that it had once published, and each hall order as it was or as the responder had it under execution by another |
| Motors.SimulatedMotor.GetFloorSensor | src/elev/elev.go:181-193 | the lowest sensor that is set, if any |
| Motors.FloorSampler.Poll | src/elev/elev.go:95-106 | a floor is reported if and only if the reading is a floor other than the last one reported |
| Motors.StopBetweenFloors | src/simulatorCore/simulatorCore.go:110-113 | a stop between floors leaves the timer running, which then goes off without effect |
| Motors.TurnBetweenFloors | src/simulatorCore/simulatorCore.go:114-126 | a turn between floors brings the car to the floor behind the one it left, or ends the process |
| ClosedLoop.MotionSafety | src/simulatorCore/simulatorCore.go:153-201 | in all reachable states of controller and motor: never over the top or under the edge, inside a sensor exactly that one set and between floors none, the two agree on the floor unless an arrival is pending, and the motor moves as the controller believes |
| ClosedLoop.MotorArrives | src/simulatorCore/simulatorCore.go:164-190 | from every such state with a moving car and no arrival pending, one or two expiries of the motor timer bring the car to the sensor of the next floor |
| ClosedLoop.LoopRefinesCar | main.go:572-639 | every step of the closed loop is a step of the car machine or the motor's own, and a floor event always comes from the next floor in the direction of travel |
| Rigs.Rig.constructor | main.go:40-90 | event loop, motor and sensor poll start in a state in which controller and motor agree |
| Rigs.Rig.OnMotorTimer | src/simulatorCore/simulatorCore.go:153-201 | the timer of the simulated motor is a step of the closed loop and never ends the process |
| Rigs.Rig.OnPoll | src/elev/elev.go:95-106 | polling the sensor makes the event loop handle a new floor, and its STOP reaches the motor; nothing happens if there is none; agreement is kept |
| Rigs.Rig.OnDoor | main.go:622-639 | the door event of the event loop starts the motor if there are orders, as a step of the closed loop; agreement is kept |
| Rigs.Rig.OnOther | main.go:98-640 | no other event the event loop can handle disturbs controller and motor |
| EventLoops.EventLoop.constructor | main.go:72-92 | a node starts knowing itself only, idle, without orders, and asks for its state |
| EventLoops.EventLoop.Handle | main.go:98-640 | one turn of the loop is a step of the system; it keeps the node fit for every later event and its car sound, drops no order unless the node hears that it is done or its own car serves it, and takes an own order away only by service or by a message for it |
| EventLoops.EventLoop.Run | main.go:97-641 | an object that takes the turns of its node in a run from initialisation is that node at the end of it, and all it has sent is on the network |
| EventLoops.EventLoop.AllActiveElevatorsHaveAcked | main.go:659-666 | true if and only if the active set is contained in those that have acknowledged |
| EventLoops.EventLoop.UpdateActiveElevators | main.go:685-699 | the loop over the known elevators turns the active map into that of `Nodes.UpdateActive` |
| EventLoops.EventLoop.OnExecutionTimeout | main.go:476-522 | by the status at that moment: the new order, the confirmation or a reassignment to the assigned best elevator is sent, or the process ends |
| Origins.TimeoutSends | main.go:476-522 | the timer, when it fires, sends exactly one message: by the status, a new order or a confirmation for the slot's assignee, or a reassignment to the chosen one |
| Origins.ReassignmentsAreChosen | main.go:500-519 | every EvReassignOrder ever sent goes back to a step at which its sender's timer fired for an order under execution by another elevator, and names the best elevator active at that node |
| Origins.NewOrdersAreDecided | main.go:528-544 | every EvNewOrder ever sent, repeated ones included, goes back to a step of its origin: a button pressed or an order failed, with the best active elevator as assignee, or a timer of an inactive order, with the assignee it had |
| Origins.ReassignRequeues | main.go:456-468 | handling a reassignment leaves the slot inactive with nothing collected, and a new order for the new assignee from the same origin last in the queue |
| Origins.Failover | main.go:450-519 | three steps of one node after its timer fires for a failed order, the order awaits confirmation for the best active elevator, is acknowledged and will be sent again |
| Origins.AcknowledgementsCollected | main.go:238-448 | in each of the three phases an acknowledgement is collected, the phase ends with the last of the active elevators and leaves nothing to the next; all others are ignored |
| Origins.AllAcknowledgedIsWatched | main.go:386-404 | an origin's execution timer for its order is started as soon as all active elevators have acknowledged the confirmation |
| Origins.WatchedFromThen | main.go:344-359 | a node that takes a confirmed order of another origin, or adopts one, has its execution timer pending from then on |
| Origins.LearnsConfirmed | main.go:282-302 | a node that hears another's confirmation for an elevator other than itself holds the order, and for that elevator if it had none |
| Origins.LearnedIsUnwatched | main.go:286-290 | of an order learned in that way no timer is started |
| Origins.MissesOwnConfirmed | main.go:284-291 | a confirmation for this node of an order it does not await is ignored |
| Origins.ConfirmationsAcknowledged | main.go:292-368 | a confirmation is acknowledged wherever the order is active, however often it comes |
| Origins.RepeatableFromThen | main.go:208-435 | a node's own new order, its confirmation, its report at a floor event and its acknowledgement of it may be sent again by a timer from then on |
| EventLoops.EventLoop.MergeStates | src/typedef/typedef.go:160-169 | the loop unites the internal orders and touches nothing else |
| EventLoops.EventLoop.AdoptOrders | main.go:162-180 | the two nested loops adopt exactly the orders under execution by others that are inactive here |
| EventLoops.EventLoop.OnHallButton | main.go:528-544 | nothing while offline; otherwise the new order for the elevator that `AssignNewOrder` chooses |
| EventLoops.EventLoop.ReportServed | main.go:584-611 | the loop clears each served order, arms its timer and reports it, in order |
| EndToEnd.NodeRefinesCar | main.go:98-640 | every event at a node, message or hardware, is a step of its car |
| EndToEnd.LeavesNode | main.go:408-469 | a node's own hall order leaves only by service at that floor, with a report in the node's name, or by a done or reassign message for it |
| EndToEnd.SoundFromInit | main.go:98-640 | in all reachable states of the system every car is sound |
| EndToEnd.OwnOrderGetsDone | main.go:572-613 | among the steps up to the 2(N-1)th floor event at a node that owns a hall order there is one at which it serves the order, standing there with the lamp on, and reports it, or one at which it handles a message that takes the order away |
| EndToEnd.ServedOnConfirmationIsOwn | main.go:302-333 | an order that the active assignee serves on hearing it confirmed is assigned to it in its matrix, and the car stands at that floor |
| EndToEnd.ConfirmedOrderIsServed | main.go:98-640 | in every run from initialisation, an order confirmed at a step of a round and taken by its active assignee is that car's own, and by the 2(N-1)th floor event from then on the car serves and reports it at a step of its own, unless it first handles a reassignment of it or a report of an elevator that had itself stopped for it earlier in the run |
| WiredNodes.WiredInOrder | src/elev/elev.go:95-106 | a node whose car is on the simulated motor gets its floor events from the next floor only, whatever it receives, so the results on nodes hold of it |

## Left out

- Wall-clock time. A timer is pending or not and may fire whenever it is pending; the timers that
  repeat a message are a set that only grows, which allows more resends than the program makes
  (it covers timers that main.go:113-126 resets).
- UDP, JSON, goroutines, mutexes and channel capacity; the cgo driver; logging; the button and lamp
  bit maps and all lamps but the door lamp. Stop button, process restart and crash are not events:
  the handshake theorems are about rounds without a crash.
- Places where the Go program would end by a nil pointer or nil map (resetting a timer that was
  never set, main.go:118-121; an acknowledgement for a slot never used, main.go:441).
- Loop variables captured by timer closures (main.go:162-177, 584-601) are taken per iteration, as
  the language has it since Go 1.22. Under older versions the timers of adopted orders all name the
  last slot of the matrix.
- `IsValid`, `sendOrderDoneMessages`, `readInputs`, `initNetwork`, the `Print` methods. Orders for
  floors outside the shaft are excluded by type.
- `sort.Sort` is not part of the repository; `Cost.Sort` stands for it and uses only `Less` and
  `Swap`, and `Cost.SortedHeadIsCheapest` shows that any other sort gives the same result.
- Simulator: it insists on four floors at startup (simulatorCore.go:28-31), the model does not.
  Times in `simulatedMotor` are left out, so how far the car is between two floors is not known; a
  stop or a reversal between floors is modelled and shown not to happen in the closed loop.
- Handshake.Round: nothing is claimed of a part of a run in which one of the four kinds of message
  listed under `Handshake.Disturbs` takes effect; `Stale` shows why.
- Handshake.Agreement: assumes one assignee per origin in the round; `Handshake.AgreementIff` is the
  statement without that, and `Disagreement.TwoAssigneesBreakAgreement` shows why.
- Conservation.DoneMeansServed: of an order that is served on hearing its confirmation it says that the
  confirmation named the server, not that the server's matrix did. That holds in a round with one
  assignee per origin (`EndToEnd.ServedOnConfirmationIsOwn`).
- That an order is confirmed at all when messages are lost is not claimed: a node that is awaiting
  does not acknowledge a resent EvNewOrder again (main.go:231-232). Nor is it claimed that all active
  nodes have taken a confirmed order when its second round of acknowledgements ends: `ConfirmedBy`
  is not cleared at main.go:302, and EvAckOrderDone writes it in any status.
- EndToEnd.ConfirmedOrderIsServed: asks that floor events at the assignee come from the next floor,
  which `WiredNodes.WiredInOrder` proves of the simulated motor, and does not say that floor events
  come: a car with work moves or will, but how long its door is held open is up to the buttons
  (main.go:549).
- ClosedLoop.MotionSafety: assumes that a floor event and the STOP it causes are handled before the
  car has left the sensor again.
- Detour.EstimateHoldsIff: takes the estimate on the car's own state, not on a peer's older copy, and
  is about cars that are not parked and whose orders no message has taken away under way.
- In Go the order matrix is a value that every call copies, and elevators are pointers held by one
  map only; the matrix and the map are therefore values in the fields of `EventLoop`.

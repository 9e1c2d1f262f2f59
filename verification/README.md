# Webull SDK: verified models of its stateful cores

The webull SDK for Go is mostly request plumbing around a few compact state machines. This
project models those machines in Dafny and proves what they are for:

- **Token refresh** (`Tokens`, `RefreshProtocol`, `TokenSource`). Any number of callers share
  one lock, one refresh in flight and one rotating token pair. `RefreshProtocol` is a step
  system with one step per critical section and per answer of the endpoint and the store; its
  theorems hold of every run. `TokenSource` gives the objects and shows that each of their
  critical sections is one step of that system.
- **Event stream** (`EventErrors`, `EventTrace`, `EventStream`, `StreamLifecycle`).
  `StreamLifecycle` is the step system in which `Close` interleaves with everything `Recv`
  does. `EventStream` is the receiving object: each of its methods carries out steps of that
  system, with other goroutines running wherever the lock is free. Its network is a set of
  answers (how delays end, how attempts go, and for each successful attempt what its stream
  will deliver). `EventTrace` says which traces and results one call of `Recv` may have, and
  that the answers leave exactly one.
- **Streaming subscriptions and queue** (`Subscriptions`, `StreamingStream`,
  `SubscriptionProtocol`, `MessageQueue`). The remembered set and its grouped replay as an
  object; the agreement between client and server over all runs with drops and failed calls;
  and the drop-oldest queue as three separate channel operations with a consumer between them.
- **Orders and groups** (`Decimals`, `Orders`, `SharedLegs`, `OrderObject`, `Groups`, `Combo`,
  `BuiltCombo`, `CancelCombo`, `Placement`, `OccSymbols`). Orders are heap objects that may occur twice in a
  group, and their legs are references to cells that several orders may share, as Go slices
  do. `Orders` and `Groups` say declaratively what is acceptable; `OrderObject` and `Combo` are
  the in-place code with its role and asset tables, proved to accept exactly that.
  `SharedLegs` works out what sharing can and cannot change.
- **Transport and signing** (`Transport`, `Strings`, `Signing`). The retry loop with its
  trace, and the canonical strings built from unordered maps.

Where the code picks from a Go map, the model picks any element, so each contract holds for
every iteration order. Environments are adversarial unless a condition is stated. These are assumed:

- the token endpoint never issues a refresh token twice (`RefreshProtocol.Enabled`);
- a failed subscribe or unsubscribe call has no effect on the streaming server
  (`SubscriptionProtocol.Apply`);
- the order server takes a client order id once, when it accepts the order
  (`Placement.Handle`);
- a cancel that succeeds leaves the order gone, and one answered "not found" or "cannot be
  cancelled" was handled while the order was not working (`CancelCombo.Answers`);
- an order that depends on a master starts to work when its master fills and at no other time,
  and masters depend on nothing (`CancelCombo.Evolves`).

## Where code and documentation differ

The model follows the code.

- `Recv` is documented to return every business event. `connect`, however, consumes the first
  response of a connection, and a business event there is lost: `EventTrace.LostEvent` shows an
  outage in which it happens. A receive loop gets everything that reached the client exactly
  if no attempt got a business event for its first response, and otherwise misses only that one,
  with which the stream ends (`EventStream.Stream.Consume`).
- `isTerminal` names four errors explicitly; all four are already not retryable
  (`EventErrors.TerminalExactly`).
- A `SubscribeRequest` is documented to hold at most 100 symbols. `resubscribe` puts all symbols
  of one category, options and type in one request, so its requests are that short exactly if at
  most 100 remembered keys share those (`StreamingStream.ShortExactly`), which two requests of
  100 symbols and one can break (`StreamingStream.OverlongReplay`).
- `CancelCombo` is documented to leave nothing working when it reports no failure. It does for
  every group exactly if each dependent order is attempted after its master
  (`CancelCombo.ReachesExactly`). For an acceptable group that means that it has no master or
  lists it in front, as the constructors do (`CancelCombo.GroupReachesExactly`); the same group
  with the master last is placed just as well (`CancelCombo.MasterLast`).
- Orders that share a slice of legs write into each other's legs when a group is prepared. The
  verdict is not affected; the legs are, exactly unless the orders agree about what the shared
  legs leave open (`SharedLegs.AloneExactly`). `Combo.SharedLegBracket` is a bracket that is
  accepted with an exit whose leg goes the master's way.
- The multi-leg check of `Combo.prepare` never fires: `Groups.MultiLegAlreadyRefused`.

## Model

| member | source | states |
|---|---|---|
| RefreshProtocol.SingleFlight | connect/client.go:149-181 | In every run, `inflight` is set exactly while a caller is between claiming and releasing it, and there is at most one such caller. |
| RefreshProtocol.SharedOutcome | connect/client.go:149-189 | No `done` is closed twice; everyone who returns through one does so after it was closed, with the same pair, of which exactly one of token and error is set; the token is one the store took, and the error is the endpoint's or the store's only if that one did fail. |
| RefreshProtocol.NoStrandedWaiter | connect/client.go:149-189 | From every reachable state with a waiter, at most five steps of other callers that lead, with nobody else moving, let the waiter return. |
| RefreshProtocol.LeaderCanClose | connect/client.go:160-188 | The leader of an unfinished call can close it by its own steps alone, even if the endpoint fails, and without touching other callers. |
| RefreshProtocol.RotationSafety | connect/client.go:160-181 | Once the endpoint's answer to a refresh token was received, that token is never sent again, whether or not saving the answer failed. |
| RefreshProtocol.StoreDiscipline | connect/client.go:127-138 | Saves are the received pairs in order, once each, at most one behind; nothing is loaded after a token was; with no refresh in flight and the last save good, store and memory agree. |
| RefreshProtocol.NewestStep | connect/client.go:160-181 | The newest pair changes only by a first load or an answer of the endpoint, and what is sent or saved is always the newest, so it cannot change while a call is in flight. |
| RefreshProtocol.FlightStep | connect/client.go:126-189 | Every step keeps: each leader owns an unfinished call, each unfinished call has its leader, and the slot belongs to the one that holds it. |
| RefreshProtocol.InvRun | connect/client.go:126-189 | All invariants hold in every state of every run. |
| RefreshProtocol.EnterExactly | connect/client.go:126-163 | The same of the protocol's step: who goes on, what it waits for or leads with, and what stays. |
| TokenSource.Source.Enter | connect/client.go:126-163 | The first critical section on the objects carries out the protocol's step. It hands out the held pair exactly if that is good for another minute; else refuses exactly if the refresh token has expired, joins exactly if a refresh is in flight, and leads one with the held refresh token exactly if none is; and a failed load and an empty store have their own errors. |
| TokenSource.Source.Release | connect/client.go:174-181 | The second critical section keeps the pair even when saving failed and frees the slot, as the protocol does. |
| TokenSource.Source.WriteResult | connect/client.go:183-187 | The result goes into the leader's own call, and no other call changes. |
| TokenSource.Source.Close | connect/client.go:188-189 | In a state the protocol can reach, the channel closed here was open, so the close cannot panic. |
| StreamLifecycle.PublishesOverNothing | events/client.go:185-197 | In every interleaving of `Close` with `Recv`, a connection is published only where none is. |
| StreamLifecycle.ClosedOnce | events/client.go:129-198 | Every connection dialled is open or was closed, never both, and never closed twice. |
| StreamLifecycle.NoLeak | events/client.go:341-350 | Once some `Close` has returned, in that and every later state no connection is open but one `connect` still has in hand. |
| StreamLifecycle.ConnectLetsGo | events/client.go:174-197 | And that one is closed by at most two further steps of `connect`, whichever way the handshake ends. |
| StreamLifecycle.InvRun | events/client.go:129-198 | The invariant behind them holds throughout every run. |
| EventTrace.RetriedExactly | events/client.go:129-198 | An attempt is retried exactly if there was no first response and its error is retryable; it succeeds exactly with an acknowledgement before the context ended. |
| EventTrace.Determined | events/client.go:244-327 | The description of a call's trace, result and remaining answers leaves no choice once the answers, and the context where it is looked at, are given. |
| EventTrace.ResultExactly | events/client.go:244-327 | What a call ends with, by its last answer: each error, each event and the spent budget exactly where the answer calls for it. |
| EventTrace.RejectionsExactly | events/client.go:200-209 | A call ends in the authentication error exactly after an AuthError response, and in the connection limit exactly after a NumOfConnExceed one, read or first. |
| EventTrace.DelayExactly | events/client.go:90-95 | The delay is the one asked for, or five seconds. |
| EventTrace.OneDelivery | events/client.go:244-281 | A call delivers the one business event it read, if it read one, and nothing else; an event that an attempt took is lost, and then the call fails. |
| EventTrace.NothingPassedOver | events/client.go:244-281 | Before its last answer, a call neither reads a business event nor makes an attempt that takes one. |
| EventTrace.LostEvent | events/client.go:170-183 | A clean end of stream, a delay, and a business event as first response: the event reached the client, the call fails without it, and no later call returns it. |
| EventTrace.OneMoreCall | events/client.go:244-281 | Over a run of calls, what is returned is all that reached the client exactly if no attempt took an event, and otherwise all but the last. |
| EventTrace.LoopDetermined | events/client.go:244-327 | A whole receive loop, with its calls, events and end, is determined by the answers and the context where it is looked at. |
| EventTrace.SessionsReadStreams | events/client.go:185-197 | Each stream is read from its beginning and without a gap, and after a successful attempt only the new one is. |
| EventTrace.AttemptsPerOutage | events/client.go:287-327 | In each outage every attempt has its own delay, but for one undelayed renewal. |
| EventTrace.ReconnectBudget | events/client.go:304-327 | With budget M, an outage makes at most M delayed attempts and one renewal, and a call that gives up reports M and has made exactly M. |
| EventTrace.NothingAfterTerminal | events/client.go:230-236 | Nothing follows a terminal connect error, a stream error not worth a reconnect, a rejection, or the end of the context. |
| EventStream.Stream.Connect | events/client.go:129-198 | With other goroutines running meanwhile: a connection it opened is published on success, and then read from; on every error path it is closed; and after a `Close` nothing is published. |
| EventStream.Stream.Reconnect | events/client.go:304-327 | Goes on until acknowledged, with the failure count reset, or ends with the one result its trace allows; it terminates with the remaining budget, or the remaining timers, as measure. |
| EventStream.Stream.Renew | events/client.go:287-297 | Dials once without a delay or charge and falls back to the delayed loop only on a transient error. |
| EventStream.Stream.Recv | events/client.go:244-281 | With `Close` running anywhere meanwhile: its trace and result are the ones `EventTrace.Outcome` describes, the failure count is 0 at every head of its loop, and once a `Close` has returned nothing is left open. |
| EventStream.Stream.Consume | events/events.go:8-18 | Calls `Recv` until it returns no event, each call going on where the one before stopped; the events it gets are the business events read from the successive streams, in order and once each, and all that reached the client exactly if no attempt took one. |
| EventStream.Stream.DropConn | events/client.go:330-337 | The published connection is closed, for the only time in the life of the stream, no other is touched, and nothing is left open. |
| EventStream.Stream.Close | events/client.go:341-350 | The same, whatever `Recv` is doing; only a connection that `connect` has in hand stays open, and it will not be published. |
| StreamingStream.Stream.Remember | streaming/stream.go:162-170 | Exactly the requested symbols times types get the request's options, under the normalised category; all other keys keep theirs. |
| StreamingStream.Stream.Forget | streaming/stream.go:173-183 | Exactly the cancelled keys go, or all of them. |
| StreamingStream.Stream.Subscribe | streaming/client.go:134-145 | Remembers exactly on success; a malformed or failed request changes nothing. |
| StreamingStream.Stream.Unsubscribe | streaming/client.go:177-196 | Forgets exactly on success; a malformed or failed request changes nothing. |
| StreamingStream.Stream.GroupKeys | streaming/stream.go:198-205 | For every iteration order, each key is listed once, under its category and options and its type. |
| StreamingStream.Stream.Resubscribe | streaming/stream.go:188-225 | Folding the requests from the empty set gives back exactly the remembered set; each request has one type and asks, without repeats, for all keys of its category, options and type and no other; each key is asked for by exactly one request; `dropped` grows by the failures. |
| StreamingStream.ShortExactly | streaming/client.go:118-119 | All requests of a replay have at most 100 symbols exactly if at most 100 remembered keys share their category, options and type. |
| StreamingStream.OverlongReplay | streaming/client.go:118-119 | Two requests of 100 symbols and one build a set of which every replay makes a request for 101. |
| Subscriptions.RememberedUnique | streaming/stream.go:162-170 | What `remember` must do determines the set it leaves. |
| Subscriptions.CategoryRemembered | streaming/client.go:198-204 | A request without a category asks for US stocks, any other for its own category. |
| SubscriptionProtocol.ServerWithinClient | streaming/client.go:134-165 | In every run with drops and failed calls, what the server holds is remembered, except in the middle of a `Subscribe`, and says what was asked for: both flags, and the depth where it is positive. |
| SubscriptionProtocol.NotRevived | streaming/client.go:177-196 | A key that was unsubscribed stays away from server and client, through replays too, until a later successful `Subscribe` asks for it. |
| SubscriptionProtocol.ReplayRestores | streaming/stream.go:188-225 | A replay with no failed call and no further drop leaves the server with exactly what is remembered. |
| SubscriptionProtocol.InvRun | streaming/stream.go:173-225 | The containment behind them, with its form for each holder of the lock, holds throughout every run. |
| MessageQueue.LastSendSucceeds | streaming/stream.go:144-159 | However the consumer interleaves, the last send never falls through, so no message is lost without being counted. |
| MessageQueue.QueueIsSuffix | streaming/stream.go:124-159 | Messages published are those gone, queued and in hand, in that order: the queue is a gapless suffix, and deliveries keep their order. |
| MessageQueue.Conservation | streaming/stream.go:71-83 | Published are echoes, decode failures, evicted, delivered, queued and the one in hand; `dropped` counts the second and third. |
| MessageQueue.NothingEvicted | streaming/stream.go:144-148 | A run whose queue never fills up evicts nothing. |
| MessageQueue.EvictedWhenFull | streaming/stream.go:144-154 | In every run, nothing is evicted for a message but after the queue was found full for it, with nothing but consuming in between. |
| MessageQueue.Channel.Enqueue | streaming/stream.go:144-159 | On the channel itself: with room the message goes behind the others and nothing is dropped; in a full channel exactly the oldest message left by the consumer goes and is counted; and the call is a run of the step system. |
| Decimals.ScaleIsLeast | trade/assets.go:134-142 | `scale` is at most k exactly if the value times ten to the k is whole: the least number of places. |
| Orders.AssetRulesSeeTheLegs | trade/assets.go:108-118 | Checking the asset rules before the legs take the order's quantity gives the verdict of checking them afterwards. |
| Orders.PreparedIsFixpoint | trade/orders.go:380-529 | Preparing a prepared order, accepted or not, changes nothing, so the verdict is the same too. |
| Orders.VerdictStands | trade/orders.go:462-529 | The verdict, reached with asset rules before leg defaults, is the one the finished order deserves, and a second call repeats it. |
| Orders.PreparedKeepsWhatIsSet | trade/orders.go:387-422 | Defaults fill blanks only; what the caller set stays. |
| Orders.LegsKeepWhatIsSet | trade/orders.go:488-522 | The same of legs; a stock leg never takes the order's contract count. |
| Orders.DefaultsExactly | trade/orders.go:387-415 | What goes into each blank field: the id, equity or option by the legs, NORMAL, QUANTITY or AMOUNT, US, CORE for equity, DAY, and SINGLE for one leg. |
| Orders.DecimalsExactly | trade/orders.go:416-419 | Each of the nine decimals is kept if present and else left without a payload. |
| Orders.LegDefaultsExactly | trade/orders.go:488-505 | What goes into each field of a leg, and only of an option order's. |
| Orders.ClassExactly | trade/assets.go:25-132 | What each asset class refuses, side by side, type by type and place by place. |
| Orders.AcceptableExactly | trade/orders.go:390-529 | An order is accepted exactly if its id has 10 to 40 characters, the fields its type asks for are there, its class permits it, and its legs are complete. |
| OrderObject.OrderRef.ValidateAsset | trade/assets.go:91-132 | Finds a problem exactly if the asset class's rule is broken; unknown values and classes are left to the server. |
| OrderObject.OrderRef.CheckFields | trade/orders.go:424-461 | Finds a problem exactly if a field that the type, time in force or entrust type needs is missing. |
| OrderObject.OrderRef.FillDefaults | trade/orders.go:394-422 | Leaves the order with its defaults filled and absent decimals cleared, and nothing else changed. |
| OrderObject.OrderRef.PrepareTwice | trade/orders.go:380-529 | A second call on the same object changes nothing and gives the same verdict. |
| OrderObject.OrderRef.PrepareOption | trade/orders.go:464-523 | Fills the strategy and every leg in its cell, and finds a problem exactly if strategy or a leg is not acceptable. |
| OrderObject.OrderRef.Prepare | trade/orders.go:380-529 | Leaves the prepared order, in the object and its legs' cells, and accepts exactly if what it leaves is acceptable. |
| SharedLegs.VerdictLike | trade/orders.go:478-523 | What preparing other orders can write into an order's legs makes no difference to its verdict. |
| SharedLegs.SameVerdict | trade/combos.go:193-196 | Prepared after others that may share its legs, a member is accepted exactly if it would be on its own. |
| SharedLegs.AlongOneMore | trade/combos.go:193-196 | Preparing the next member leaves all that was prepared as it was, but for the legs, and those alike. |
| SharedLegs.AloneExactly | trade/orders.go:488-505 | The members end up as if each had been prepared on its own exactly if they agree about the legs they share. |
| SharedLegs.LegsAgreeExactly | trade/orders.go:488-505 | Read off the orders before the call, whatever their instruments: they do exactly if the option orders that share a leg would fill in the same, and a leg shared with an order that writes nothing already holds what they would. |
| Groups.TableMeansFamilies | trade/combos.go:118-143 | The role table with the checks around it admits exactly brackets, OTOs, OCOs and OTOCOs. |
| Groups.ExitsMoveAgainst | trade/combos.go:231-250 | The exits of an acceptable bracket are on the master's symbol and move the position the other way, and none of them sells short. |
| Groups.OneExitExactly | trade/combos.go:279-287 | A master and one exit are a group exactly with the exit's type in its place and the sides buy and sell, sell and buy, or short and buy. |
| Groups.PairExactly | trade/combos.go:118-143 | The same for two members of an OTO, OCO or OTOCO: equity, and the types of each role. |
| Groups.FamilyKind | trade/combos.go:146-165 | A group of a family is recognised as that family, wherever its members stand. |
| Groups.NoMixedFamilies | trade/combos.go:145-165 | Dependent orders of two families never make an acceptable group. |
| Groups.OrderDoesNotMatter | trade/combos.go:168-256 | The verdict is the same for every order of the members. |
| Groups.MultiLegAlreadyRefused | trade/combos.go:216-220 | The group's own multi-leg check is implied by the members' `prepare`. |
| Groups.BuiltOTO | trade/combos.go:65-74 | A group built as an OTO is accepted exactly with one to six triggered orders, all acceptable equity orders of triggerable types, with distinct ids. |
| Groups.BuiltOCO | trade/combos.go:87-95 | The same for an OCO: two to six cancellable orders. |
| Groups.BuiltOTOCO | trade/combos.go:97-106 | The same for an OTOCO: a triggerable master and one to six cancellable orders. |
| Groups.BuiltBracket | trade/combos.go:40-52 | A bracket, any of whose three places may be empty, is accepted exactly if it has an exit, its members are acceptable, distinct and of their place's type, and its exits close the master that is there. |
| Combo.Combo.Bracket | trade/combos.go:46-63 | Lists the orders that are there and gives each the role of its last place; no other field, and no leg, changes. |
| Combo.Combo.OTO | trade/combos.go:67-85 | Keeps missing orders as missing; an object that is both master and triggered ends as triggered. |
| Combo.Combo.OCO | trade/combos.go:89-95 | Every order gets the role; no other field, and no leg, changes. |
| Combo.Combo.OTOCO | trade/combos.go:99-106 | As for OTO, with the OTOCO role. |
| BuiltCombo.PrepareOTO | trade/combos.go:65-74 | Built and then prepared, an OTO is accepted exactly if nothing is missing or given twice and the orders, prepared on their own in their new roles, are one to six behind the first, all acceptable equity orders of triggerable types with distinct ids. |
| BuiltCombo.PrepareOCO | trade/combos.go:87-95 | The same for an OCO of two to six cancellable orders. |
| BuiltCombo.PrepareOTOCO | trade/combos.go:97-106 | The same for an OTOCO: a triggerable master and one to six cancellable orders. |
| BuiltCombo.PrepareBracket | trade/combos.go:40-52 | The same for a bracket, any of whose places may be empty: an exit, each order of its place's type, and the exits closing the master that is there. |
| Combo.FindKind | trade/combos.go:146-165 | The kind is that of the strongest role present, if there is a dependent one. |
| Combo.KindPrepared | trade/combos.go:184-194 | Reading the kind before the members are prepared gives what reading it afterwards would. |
| Combo.CheckMember | trade/combos.go:202-220 | Finds a problem exactly if role, type or instrument do not fit the kind. |
| Combo.CheckCounts | trade/combos.go:222-226 | For every iteration order, finds a problem exactly if some role's count is out of its range. |
| Combo.CheckExits | trade/combos.go:231-250 | With at most one master, finds a problem exactly if an exit does not close it. |
| Combo.Combo.EachMember | trade/combos.go:190-221 | With members that may be one object or share legs: stops at one that would not be acceptable on its own, and otherwise finds a problem exactly if an id repeats or a member does not fit. |
| Combo.Combo.Prepare | trade/combos.go:168-256 | Writes back a generated group id, and accepts exactly if no member is missing, the id fits, no object occurs twice, and the members, each prepared on its own, are a valid group; leaves just those but for the legs, which are what one member after the other made of them; leaves just those, legs included, exactly if the members agree about the legs they share; and when it refuses different objects has touched none beyond some point. |
| Combo.PassesInAnyOrder | trade/combos.go:168-256 | The verdict on a group is the same for every order in which its members, with their generated ids, are listed. |
| Combo.SharedLegBracket | trade/orders.go:488-505 | A bracket whose master and exit share an open leg is accepted, and the exit's leg then has the master's side. |
| CancelCombo.CancelAll | trade/combos.go:324-337 | With orders filling, starting and ending meanwhile: every member that is there is attempted once and in order, exactly the other failures are returned, and with none and every master before its dependents no member is working any more. |
| CancelCombo.FailuresExactly | trade/combos.go:333-344 | Returned are exactly the attempts whose error carries neither of the two codes, each as often as it was made. |
| CancelCombo.NothingReported | trade/combos.go:333-344 | Nothing is returned exactly if every attempt succeeded or was answered with one of the two codes. |
| CancelCombo.ReachesExactly | trade/combos.go:316-323 | No failures mean that nothing is left working, whatever happens, exactly if every dependent order is attempted after its master. |
| CancelCombo.GroupReachesExactly | trade/combos.go:316-323 | For an acceptable group they do exactly if it has no master or lists it in front, as the constructors do. |
| CancelCombo.MasterLast | trade/combos.go:316-323 | Every acceptable group with a master in front is as acceptable with the master moved to the end, and then they do not. |
| CancelCombo.DependentLeftWorking | trade/combos.go:333-335 | The run: the dependent order is not found, its master fills and starts it, and the master cannot be cancelled. |
| CancelCombo.CancelOrder | trade/orders.go:649-662 | An empty id is refused without a call; any other makes one call. |
| Placement.AtMostOneAcceptance | trade/orders.go:573-590 | Over any run of placements and corrections of one Order value, with lost requests, lost replies and rejections, the server accepts at most one. |
| Placement.SentOnce | internal/transport/transport.go:128-180 | A placement reaches the server at most once, since a POST is not sent again. |
| Placement.DuplicateWasAccepted | trade/orders.go:347-352 | The duplicate error is returned only if the id was taken before this call. |
| Placement.ReturnedExactly | trade/orders.go:347-352 | The duplicate error is returned exactly if the request arrived, its answer came back and the id had been taken; a receipt exactly if it had not and the order was good; a refusal exactly if the order was not acceptable. |
| Placement.ReceiptMeansAccepted | trade/orders.go:581-590 | A receipt means that this very call's order was accepted. |
| OccSymbols.PrintParsed | trade/orders.go:310-332 | Printing the leg of an accepted symbol gives the symbol back. |
| OccSymbols.ParsePrinted | trade/orders.go:310-332 | Every leg a symbol can stand for is parsed from its printed form. |
| OccSymbols.LegFromSymbolInjective | trade/orders.go:310-332 | No two symbols stand for the same leg. |
| OccSymbols.LegExactly | trade/orders.go:310-332 | What the leg of an accepted symbol says, digit by digit, with C for a call, years from 1969 to 2068 and the strike in thousandths. |
| OccSymbols.MonthLength | trade/orders.go:315-318 | Months are as long as the days between their firsts. |
| OccSymbols.RootExactly | trade/orders.go:302-304 | A root is capitals, digits and points and begins with a capital. |
| OccSymbols.AcceptedExactly | trade/orders.go:304-318 | Accepted are exactly the symbols that match, in whatever way, with a date that exists. |
| Transport.Do | internal/transport/transport.go:100-180 | For every policy and outcomes, stops at the first attempt that is not retried, or in the pause after it, with the result and trace described; the return after the loop is never reached. |
| Transport.ReturnedExactly | internal/transport/transport.go:128-179 | By replies and statuses: which are followed by another attempt, and what is returned after the last. |
| Transport.RefusedExactly | internal/transport/transport.go:100-124 | Two bodies, a body that cannot be encoded and a refused authorization are each refused with their own error before anything is sent. |
| Transport.IdempotentExactly | internal/transport/transport.go:284-291 | Safe to replay are GET, HEAD and OPTIONS, in any case, and nothing else. |
| Transport.DelaysExactly | internal/transport/retry.go:59-74 | The base, the doubling and the cap, with 200 milliseconds and two seconds where none is asked for. |
| Transport.BehavesDetermined | internal/transport/transport.go:100-180 | That description leaves no choice. |
| Transport.TraceOrder | internal/transport/transport.go:114-180 | The authorizer is asked at most once and first, attempts go up in order and stay below the policy's number, and pauses never shrink and stay within the cap. |
| Transport.SentOnceUnlessIdempotent | internal/transport/retry.go:42-56 | A method other than GET, HEAD and OPTIONS is sent at most once, with no pause. |
| Transport.BackoffGrows | internal/transport/retry.go:59-74 | Each delay is twice the one before until the cap, positive and within it. |
| Transport.BackoffAsComputed | internal/transport/retry.go:69-73 | A product that 64 bits cannot hold gives the same delay, whether its conversion saturates or wraps. |
| Strings.EscapeRoundTrip | internal/signing/signing.go:214-218 | Percent-decoding after section 2.1 of RFC 3986 undoes the escaping of every byte string. |
| Strings.EscapeStep | internal/signing/signing.go:216-218 | The rewritten "+" only ever stands for a space, so escaping goes byte by byte. |
| Strings.EscapedIsUnreserved | internal/signing/signing.go:214-218 | What comes out is unreserved after section 2.3 of RFC 3986, but for percent signs. |
| Strings.ListsUnique | internal/signing/signing.go:190-194 | A set of keys has one strictly sorted list. |
| Strings.LessExactly | internal/signing/signing.go:190-194 | The order of the keys is that of the first byte in which they differ, a beginning coming first. |
| Strings.SortKeys | internal/signing/signing.go:190-194 | The keys, strictly sorted, and no others. |
| Signing.AddHeaders | internal/signing/signing.go:169-173 | For every iteration order, each header stands under its lower-case name, on top of the host. |
| Signing.AddQuery | internal/signing/signing.go:175-188 | For every iteration order, under each key stands the header's value first, then the query's values in order; keys without a value are absent. |
| Signing.Canonical | internal/signing/signing.go:163-212 | The text is the path, the strictly sorted pairs and the body's digest, escaped. |
| Signing.CanonicalUnique | internal/signing/signing.go:163-212 | Two runs over the same request and headers, in any iteration orders, give the same text. |
| Signing.BodyExactly | internal/signing/signing.go:207-212 | Requests that differ in the body only have one canonical string exactly if their digests are equal. |
| Signing.PathExactly | internal/signing/signing.go:197-212 | With digests of one length it fixes the path as well. |
| Signing.EveryParameterStands | internal/signing/signing.go:196-205 | Every parameter stands in it as name, equals sign and value, between ampersands. |
| Signing.ParamsExactly | internal/signing/signing.go:165-188 | The header stands first under its key and the query's values follow; a key without values is absent. |
| Signing.DigestCase | internal/signing/signing.go:207-211 | The digest is in capitals for HTTP and in small letters for a stream. |
| Signing.StreamCanonicalUnique | internal/signing/signing.go:121-146 | The same for a stream's text. |
| Signing.StreamCanonical | internal/signing/signing.go:121-146 | The stream's text: no path, host or query, the pairs joined by "=", a lower-case digest. |
| Signing.HeadersExactly | internal/signing/signing.go:95-103 | The five headers, by name and value. |
| Signing.Sign | internal/signing/signing.go:107-111 | The signature is computed over the five headers without itself and added to them. |
| Signing.SignStream | internal/signing/signing.go:121-149 | So is a stream request's, over the stream's text. |

## Left out

- RefreshProtocol.NoStrandedWaiter: says that a leader can always finish, not that the scheduler lets it; no fairness is assumed.
- RefreshProtocol.StoreDiscipline: says nothing of another process that writes the same store.
- EventStream.Stream.Connect: leaves out the first `connect`, made by `Subscribe`, whose error means that there is no stream.
- EventStream.Stream.Close: is one goroutine's two steps back to back; that others run between them is in `Others` and in StreamLifecycle.
- CancelCombo.CancelAll: models dependence one level deep, as in the groups of this package.
- MessageQueue.Conservation: counts only the queue's and the decoder's share of `dropped`, not failed replays.
- MessageQueue.LastSendSucceeds: is for one publishing goroutine and a capacity of at least 1, which `Connect` makes sure of.
- Combo.CheckExits: with two masters it promises nothing, since the counts refuse the group then.
- Placement.DuplicateWasAccepted: speaks of ids the server has taken, whoever sent them; that generated ids are fresh is not modelled.
- Transport.BackoffAsComputed: takes base delays of up to 2^53 nanoseconds, 104 days, for which the floating-point product is exact; the rounding of longer ones is not modelled.
- Decimals.ScaleIsLeast: does not model the truncation of the number of places to 32 bits.
- Signing.Canonical: takes header names that differ in more than case, as the signer's do.
- HTTP, gRPC, MQTT, TLS, JSON and protobuf: each call is an outcome the environment chooses. So are clocks, random ids, timers, nonces and digests; the HMAC is any function.
- Text of errors and lists of problems: only verdict, class and number are modelled.
- A nil `*Order` passed to `PlaceOrder` and a nil `*Combo`: single refusals before anything else. The difference between a nil and an empty list of legs.
- Open string enumerations are datatypes with a constructor for any other value; upper and lower case are those of ASCII.
- Order copies for placement, the envelopes, `PreviewOrder`, `PlaceCombo`, `PlaceOrders`, `ReplaceOrder` and the read-only calls: field copying around the parts modelled here.
- The `Recv` of the streaming package is only its taking from the queue, not its two other cases; broker connection, `waitToken` and `Close` there are left out.
- The token stores, the OAuth calls, market data, accounts, instruments, futures and event decoding: thin layers.
- Overflow of times: instants and lifetimes are unbounded integers.

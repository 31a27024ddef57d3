# Verification of DeskSync's protocols

DeskSync lets a phone control a desktop. This project models the parts of it that are protocols, state machines and
codecs, in Dafny 4.11, and proves what they promise over all inputs and all runs. Check it with
`dafny verify dfyconfig.toml`.

What is modelled, file by file:

- `HubModel`, `HubInvariants`, `HubTheorems`, `HubEffects`, `Hub`: the signaling relay. Two-peer rooms, bounded outbound channels,
  nonce guards, presence, eviction. The state machine interleaves connections, with a relay's lookup, send and eviction
  as three steps. The classes of `Hub` do what its steps do, piece by piece: accepting, looking up, sending and evicting
  are each proved from any state of the hub (`Hub.StepsArePieces`), and `Relay` and `Dispatch` are their undisturbed
  composition.
- `Negotiation`, `Handshake`, `Reconnect`: the offer/answer machine of both roles, relay and endpoints together, and what
  reconnecting does to them.
- `SecureChannel`, `SecureStream`: the end-to-end channel and any number of its ends receiving arbitrary frames. The
  cipher is ideal: opening succeeds exactly for what was released under that key, nonce and associated data (section
  8.2.1 of NIST SP 800-38D for the nonce), HKDF (section 2.3 of RFC 5869) is injective, and X25519 (section 6.1 of RFC
  7748) commutes.
- `Replay`: the three strictly-increasing filters, which are one.
- `RefreshTokens`, `AuthService`: refresh-token rotation with reuse detection.
- `Trust`, `TrustInvariants`, `TrustTheorems`, `TrustEffects`, `ChallengeBudget`, `TrustServices`: devices, pairings,
  pairing challenges and sessions over three services, their tables and the challenge store, whose keys expire by a
  millisecond clock.
- `FrameStream`: cutting frames into data-channel messages, and the viewer's reassembly.
- `Floats`, `Bitrate`, `Scaling`: binary32 and binary64 of IEEE 754 as exact operations followed by any rounding that is
  monotone and near, and the arithmetic that uses them.
- `PasswordHash`, `Truncate`: codecs.
- `Basics`, `Protocol`: machine integers, byte strings, and the signaling envelope.

The relay, the token and pairing services, the channel, the sender and receiver of frames, the bitrate controller, the
scaling loops and the truncation loop are methods and classes that change state, each proved to compute a function of its
inputs and old state. The theorems are about those functions.

Where the code and a natural expectation part ways, the model follows the code and says when the expectation holds:

- Offer and answer agree exactly as long as a session sees one controller connection (`Reconnect.AgreementIff`).
- A nonce repeats exactly when a channel is rebuilt from the same inputs (`SecureStream.NonceReusedIff`): counters start
  again at 0, and nothing in the channel prevents it.
- The controller's phase is monotone; an agent's falls exactly when a new offer finds it connected
  (`Negotiation.AgentRankFallsIff`).
- A challenge takes up to 2 maxAttempts - 1 wrong codes (`ChallengeBudget.GuessBudget`), not maxAttempts: the TTL command
  rounds to the nearest second, so the counter can expire up to half a second before the challenge, after which the `ttl > 0`
  guard leaves the new counter without an expiry. maxAttempts holds in a run as long as no wrong guess meets an expired
  counter, and once one does, guessing on exceeds it (`ChallengeBudget.LimitHoldsUnlessRestarted`); it holds for all runs
  only if it is one (`ChallengeBudget.LimitIsBoundIff`).
- A pairing challenge outlives the revocation of its desktop (`TrustTheorems.ConfirmAfterRevocation`), and that is the only
  way to an active pairing with a revoked desktop (`TrustTheorems.StaleWasConfirmedLate`).
- An empty frame is reported as sent and never arrives (`FrameStream.DeliveredIffNoneEmpty`).
- The bitrate raise can wrap at 32 bits, and below 13 bps it adds nothing (`Bitrate.OrderKeptIff`,
  `Bitrate.ReachesMaxIff`).
- The comments at desktop-agent/crates/capture/src/frame.rs:19-21 and 72-73 promise the height bound and no upscaling. The
  bound is met exactly from 2 up (`Scaling.HeightBoundIff`), no side grows exactly when both are at least 2
  (`Scaling.NeverGrowsIff`), and scaling twice is scaling once except for some frames at a bound of 1
  (`Scaling.IdempotentIff`).
- The presence note to the peer already there is lost exactly when its buffer is full (`HubTheorems.OlderToldIff`).

## Model

| member | source | states |
|---|---|---|
| `Handshake.ControllerAgreement` | desktop-agent/crates/transport/src/negotiation.rs:104-178 | In every interleaved run of relay and endpoints with one controller connection, however often agents reconnect: at most one offer is created, every offer an agent is told to answer is that one, and every answer applied is one an agent produced for it. |
| `Handshake.Agreement` | desktop-agent/crates/config-ui/src/session_runtime.rs:268-305 | When each role joined once, the answer the controller applies is that one agent's, to the controller's one offer. |
| `Handshake.RunNetKeeps` | desktop-agent/crates/config-ui/src/session_runtime.rs:276-302 | Every reachable state of relay plus endpoints: connections dispatch only what their client sent, clients send only offers and answers they created, and every SDP taken in came from an opponent. |
| `Handshake.StepAccepts` | backend/services/signaling/internal/hub/hub.go:169-195 | A relay step adds at most one peer and extends at most one peer's accepted messages, by the very message dispatched. |
| `Handshake.ActionsCarriedOut` | desktop-agent/crates/config-ui/src/session_runtime.rs:276-291 | In every run, whatever offer or answer a machine asked for was made and put on the wire, for that offer, unless its client has stopped. |
| `Handshake.StopsWhenClosed` | desktop-agent/crates/config-ui/src/session_runtime.rs:302-305 | In every run a client that was fed a bye, a departure or a forced close has stopped. |
| `Handshake.LinkConnects` | desktop-agent/crates/transport/src/negotiation.rs:119-123 | When the link of a client that has not stopped comes up, its machine is connected, after any run. |
| `Handshake.GivingUpStops` | desktop-agent/crates/transport/src/negotiation.rs:126-133 | A client that gives up has stopped, after any run. |
| `Reconnect.AgreementIff` | desktop-agent/crates/transport/src/negotiation.rs:160-167 | For every session and every bound: all runs with up to that many controller connections apply only answers made for the applying controller's own offer, exactly when the bound is at most one. |
| `Reconnect.OneControllerAgrees` | desktop-agent/crates/transport/src/negotiation.rs:160-167 | With at most one controller connection every answer applied was made for that controller's offer. |
| `Reconnect.TwoControllersDisagree` | backend/services/signaling/internal/hub/hub.go:95-126 | With two, some run of any session applies an answer that was made for the other's offer. |
| `Reconnect.Scene.SecondControllerMisled` | desktop-agent/crates/transport/src/negotiation.rs:160-167 | That run, for any session and any two different offers: a controller leaves after its offer was answered, a second one joins and offers, and applies the waiting answer to the first offer. |
| `Negotiation.ControllerActions` | desktop-agent/crates/transport/src/negotiation.rs:135-167 | A controller creates an offer exactly on its peer's first arrival before anything else started it, and applies exactly the first answer after it, unless something settled the offer first; it never answers. |
| `Negotiation.ControllerOffersOnce` | desktop-agent/crates/transport/src/negotiation.rs:141-146 | For every input sequence: at most one CreateOffer, at most one ApplyAnswer, and only after the offer. |
| `Negotiation.AgentActions` | desktop-agent/crates/transport/src/negotiation.rs:151-158 | An agent answers every offer received before closing, with that offer, and never creates offers or applies answers. |
| `Negotiation.ClosesOnceAndForAll` | desktop-agent/crates/transport/src/negotiation.rs:126-133 | Close is emitted on the first closing input only, and nothing at all after it. |
| `Negotiation.ClosedIff` | desktop-agent/crates/transport/src/negotiation.rs:104-133 | Either role is closed exactly when a bye, a departure or a forced close came before. |
| `Negotiation.ControllerPhases` | desktop-agent/crates/transport/src/negotiation.rs:135-167 | When a controller is still waiting, and when it has an offer out, in terms of its inputs alone; it never rests in ReadyToNegotiate. |
| `Negotiation.ControllerRankRises` | desktop-agent/crates/transport/src/negotiation.rs:135-167 | A controller's phase never falls back. |
| `Negotiation.AgentRankFallsIff` | desktop-agent/crates/transport/src/negotiation.rs:151-158 | An agent's falls with an input exactly when that is an offer, nothing closed before, and some link came up after the last offer before it. |
| `Negotiation.AgentConnectedIff` | desktop-agent/crates/transport/src/negotiation.rs:118-158 | An agent is connected exactly when nothing closed before and a link came up after the last offer. |
| `Negotiation.CandidateAddedIff` | desktop-agent/crates/transport/src/negotiation.rs:169-178 | Input i makes either role add a candidate, the very one received, exactly when nothing closed before and the peer's arrival, a link or (for an agent) an offer came before. |
| `Negotiation.WaitingIff` | desktop-agent/crates/transport/src/negotiation.rs:94-178 | Either role waits exactly until the first arrival, link, close or (for an agent) offer. |
| `Negotiation.AgentReadyIff` | desktop-agent/crates/transport/src/negotiation.rs:135-149 | An agent is ready exactly when its peer has arrived and nothing but arrivals has moved it. |
| `Negotiation.ControllerConnectedIff` | desktop-agent/crates/transport/src/negotiation.rs:119-123 | A controller is connected exactly when its link came up and nothing closed it. |
| `Negotiation.PresentIff` | desktop-agent/crates/transport/src/negotiation.rs:126-149 | The peer counts as present exactly from its first arrival until something closes. |
| `Negotiation.NegotiationState.constructor` | desktop-agent/crates/transport/src/negotiation.rs:85-91 | A fresh machine waits for its peer. |
| `Negotiation.NegotiationState.OnSignal` | desktop-agent/crates/transport/src/negotiation.rs:104-116 | State and action after any payload are the machine's reaction to it. |
| `Negotiation.NegotiationState.OnConnected` | desktop-agent/crates/transport/src/negotiation.rs:119-123 | An open machine becomes connected, without an action. |
| `Negotiation.NegotiationState.Close` | desktop-agent/crates/transport/src/negotiation.rs:126-133 | Closes once; closing again does nothing. |
| `Negotiation.NegotiationState.OnPeerJoined` | desktop-agent/crates/transport/src/negotiation.rs:135-149 | Presence is noted; only the first arrival while waiting advances, to an offer for the controller. |
| `Negotiation.NegotiationState.OnOffer` | desktop-agent/crates/transport/src/negotiation.rs:151-158 | Only an open agent reacts, by answering. |
| `Negotiation.NegotiationState.OnAnswer` | desktop-agent/crates/transport/src/negotiation.rs:160-167 | Only a controller with an offer out reacts, by applying it. |
| `Negotiation.NegotiationState.OnIce` | desktop-agent/crates/transport/src/negotiation.rs:169-178 | Candidates are added unless waiting or closed. |
| `HubTheorems.RegisteredIffOpen` | backend/services/signaling/internal/hub/hub.go:129-150 | In every interleaved run a peer is registered under its own session and role exactly while its channel is open. |
| `HubTheorems.RoomsAreSound` | backend/services/signaling/internal/hub/hub.go:143-148 | A room exists exactly while the session has an open peer, and no two open peers share session and role. |
| `HubTheorems.EvictionSparesOthers` | backend/services/signaling/internal/hub/hub.go:137-139 | Evicting a relay's chosen target removes no other registration; a target that was replaced meanwhile is left alone altogether. |
| `HubTheorems.RunEvolves` | backend/services/signaling/internal/hub/hub.go:49-70 | However a run goes on, outbound logs and accepted messages only grow, a closed peer stays closed and is sent nothing more. |
| `HubTheorems.OutboundProvenance` | backend/services/signaling/internal/hub/hub.go:165-220 | Everything ever queued to a peer is a presence note about an opponent or the verbatim message of an opposite-role peer of its session, valid, of a relayable kind and past that peer's nonce guard. |
| `HubTheorems.QueuedAtMostOnce` | backend/services/signaling/internal/hub/hub.go:199-220 | One accepted message is queued at most once, to at most one peer, with the relay split at its unlock. |
| `HubTheorems.RelayedInNonceOrder` | backend/services/signaling/internal/hub/hub.go:178-180 | A peer's messages from one sender carry strictly rising nonces. |
| `HubTheorems.RelayDelivers` | backend/services/signaling/internal/hub/hub.go:169-220 | A message the relay takes, to an opponent with room, is the next thing in that opponent's log and in nobody else's. |
| `HubEffects.MessageEffect` | backend/services/signaling/internal/hub/hub.go:169-220 | For every run and every kind of message that is readable, for the sender's session and newer than all it had accepted: offers, answers, candidates and byes are appended verbatim to the opponent's log and to nobody else's, or cost a full opponent its place; heartbeats and other kinds change no log; byes and other kinds end the connection, the rest go on reading. |
| `HubEffects.TakenIff` | backend/services/signaling/internal/hub/hub.go:170-180 | A message is accepted exactly when it decodes to version 1 with a session and payload, names the sender's session and has a nonce above all accepted before; any other changes nothing and ends the connection. |
| `HubEffects.RelayCompletes` | backend/services/signaling/internal/hub/hub.go:199-220 | However long the send is put off and whatever others do meanwhile, it appends the message to the opponent chosen at the dispatch, and to nobody else's log, exactly if that channel is then open with room. |
| `HubEffects.JoinSucceedsIff` | backend/services/signaling/internal/hub/hub.go:95-126 | A connection gets a place exactly when no open peer has its session and role; it is then registered, open and reading, and a refusal changes nothing. |
| `HubEffects.CleanedUp` | backend/services/signaling/internal/hub/hub.go:129-150 | Once a connection is cleaned up its peer is unregistered and closed, and is queued nothing more, whatever follows. |
| `HubEffects.QueueBounded` | backend/services/signaling/internal/hub/hub.go:16-18 | In every run at most 64 messages wait for a peer, and its channel is full exactly at 64. |
| `HubTheorems.RefusedGoesNowhere` | backend/services/signaling/internal/hub/hub.go:170-180 | A malformed message, one for another session, or one whose nonce is not above the last accepted reaches nobody and ends its sender's connection. |
| `HubTheorems.SlowTargetIsEvicted` | backend/services/signaling/internal/hub/hub.go:216-219 | A target that cannot take a message ends up unregistered and closed, its log unchanged. |
| `HubTheorems.LeavingIsTold` | backend/services/signaling/internal/hub/hub.go:140-148 | The peer left behind keeps its place and gets peer_left when it has room. |
| `HubTheorems.PresenceOrder` | backend/services/signaling/internal/hub/hub.go:115-122 | A peer joining second has peer_joined for the other role first in its log for ever; if the other had room, its peer_joined precedes everything relayed from the newcomer. |
| `HubTheorems.OlderToldIff` | backend/services/signaling/internal/hub/hub.go:115-122 | However a run goes on, the newcomer's arrival is in the older peer's log exactly when that peer had room at the join. |
| `HubInvariants.RunKeeps` | backend/services/signaling/internal/hub/hub.go:84-220 | Lifecycle, routing, histories, presence and pending relays hold in every state of every run. |
| `HubInvariants.StepKeeps` | backend/services/signaling/internal/hub/hub.go:84-220 | Each single step keeps them. |
| `Hub.DispatchWholeIsItsSteps` | backend/services/signaling/internal/hub/hub.go:199-220 | The Dispatch of the class, which nothing disturbs, is the composition of the state machine's three interleavable steps. |
| `Hub.StepsArePieces` | backend/services/signaling/internal/hub/hub.go:169-220 | From any state, so whatever other connections did in between, each of the three steps changes the hub as one piece of the class does: accepting and looking up, sending, evicting. |
| `Hub.Peer.TrySend` | backend/services/signaling/internal/hub/hub.go:55-60 | A non-blocking send; its precondition, proved at every call, is that the channel is not closed. |
| `Hub.Peer.CloseChannel` | backend/services/signaling/internal/hub/hub.go:66-69 | Closing requires an open channel, proved at every call. |
| `Hub.Peer.Enqueue` | backend/services/signaling/internal/hub/hub.go:49-61 | Queues unless closed or full, and says which. |
| `Hub.Peer.Close` | backend/services/signaling/internal/hub/hub.go:63-70 | Closes at most once. |
| `Hub.Peer.Receive` | backend/services/signaling/internal/ws/ws.go:105-113 | The writer takes the oldest queued message. |
| `Hub.Hub.Admit` | backend/services/signaling/internal/hub/hub.go:99-113 | Object graph and state machine stay coupled when a fresh peer is registered. |
| `Hub.Hub.Join` | backend/services/signaling/internal/hub/hub.go:95-126 | Refused when the role is taken; otherwise the new hub is the state machine's join. |
| `Hub.Hub.Drop` | backend/services/signaling/internal/hub/hub.go:140-148 | Removes a registered peer and an emptied room, and closes the peer. |
| `Hub.Hub.Leave` | backend/services/signaling/internal/hub/hub.go:129-150 | Does nothing for a peer that no longer holds its place; otherwise the state machine's leave. |
| `Hub.Hub.Target` | backend/services/signaling/internal/hub/hub.go:200-211 | Finds the other peer in the room, if any, whatever the state of the hub. |
| `Hub.Hub.Accepts` | backend/services/signaling/internal/hub/hub.go:178-180 | The nonce guard: a fresh message is accepted into the sender's history, any other leaves the hub as it was. |
| `Hub.Hub.SendTo` | backend/services/signaling/internal/hub/hub.go:212-219 | The send, to a target found earlier and from any state: queues and records it exactly when the target can take it. |
| `Hub.Hub.Relay` | backend/services/signaling/internal/hub/hub.go:199-220 | Sends to the target or evicts it, when nothing comes between. |
| `Hub.Hub.Dispatch` | backend/services/signaling/internal/hub/hub.go:169-195 | New hub and verdict are those of the state machine's whole dispatch, for every message, when nothing comes between. |
| `Hub.Hub.Drain` | backend/services/signaling/internal/ws/ws.go:107-112 | The writer's step is the state machine's. |
| `Replay.AcceptedIffRunningMaximum` | backend/services/signaling/internal/protocol/protocol.go:87-96 | A nonce is accepted exactly when it exceeds everything earlier in the stream, accepted or not. |
| `Replay.AfterIsMaximum` | backend/services/signaling/internal/protocol/protocol.go:87-96 | The filter's state is the maximum of all it saw. |
| `Replay.AcceptedIncreases` | desktop-agent/crates/transport/src/lib.rs:132-142 | What gets through is strictly increasing and ends at the filter's state. |
| `Replay.NonceGuard.Accept` | backend/services/signaling/internal/protocol/protocol.go:89-96 | The relay's two-field guard takes exactly what the filter takes. |
| `Replay.ReplayGuard.Accept` | desktop-agent/crates/transport/src/lib.rs:134-142 | So does the agent's guard. |
| `SecureStream.OpensCounterpartsStream` | desktop-agent/crates/crypto/src/lib.rs:193-247 | Under any interleaving of seals and arbitrary frames, what an end opens are its counterpart's plaintexts at strictly rising positions. |
| `SecureStream.OpensOnlyCounterparts` | desktop-agent/crates/crypto/src/lib.rs:156-177 | An end that opened anything has a counterpart with the same secret, session and device keys and the other role. |
| `SecureStream.ReleasedFrameOpens` | desktop-agent/crates/crypto/src/lib.rs:218-247 | A released frame opens at its counterpart, to its plaintext, exactly when its counter is above the last one opened. |
| `SecureStream.GenuineIffReleased` | desktop-agent/crates/crypto/src/lib.rs:218-247 | A frame decrypts at an end exactly when a counterpart released that very frame, byte for byte; only such frames open, so none of another session or direction and no changed one. |
| `SecureStream.OpenOutcome` | desktop-agent/crates/crypto/src/lib.rs:218-247 | What becomes of any bytes at any end: malformed below 24, a replay if the counter is not above all opened, opened exactly if a counterpart released them, and otherwise refused. |
| `SecureStream.SealsUntilExhausted` | desktop-agent/crates/crypto/src/lib.rs:208 | Sealing succeeds exactly while fewer than 2^64 - 1 frames are out. |
| `SecureStream.JunkIsInvisible` | desktop-agent/crates/crypto/src/lib.rs:222-246 | The counters opened are the running maxima of the genuine ones delivered, that is, of frames a counterpart released (GenuineIffReleased); genuine frames in order are all opened whatever comes between. |
| `SecureStream.CountersCountUp` | desktop-agent/crates/crypto/src/lib.rs:193-214 | Released frames carry 0, 1, 2, ... below 2^64 - 1, all different. |
| `SecureStream.NonceReusedIff` | desktop-agent/crates/crypto/src/lib.rs:156-214 | A key meets one nonce twice exactly when a channel is built a second time from the same inputs and both seal. |
| `SecureStream.ExhaustedForGood` | desktop-agent/crates/crypto/src/lib.rs:208 | At the last counter value seal only errors, for ever. |
| `SecureStream.RunKeeps` | desktop-agent/crates/crypto/src/lib.rs:193-247 | Every record of the cipher's log is one end's next sealing, and every end opened only what was sealed for it. |
| `SecureChannel.NonceInjective` | desktop-agent/crates/crypto/src/lib.rs:250-254 | Different counters have different nonces. |
| `SecureChannel.AadInjective` | desktop-agent/crates/crypto/src/lib.rs:256-261 | Session and direction can be read off the associated data. |
| `SecureChannel.InfoInjective` | desktop-agent/crates/crypto/src/lib.rs:124-140 | Prefix, session and both keys can be read off the HKDF info, although the session id is not framed. |
| `SecureChannel.CounterRoundTrip` | desktop-agent/crates/crypto/src/lib.rs:211-224 | The frame's counter bytes read back. |
| `SecureChannel.LinkedIffCounterparts` | desktop-agent/crates/crypto/src/lib.rs:156-177 | One end sends under the key another receives under exactly when they are the two roles of one handshake. |
| `SecureChannel.EstablishedEndsMeet` | desktop-agent/crates/crypto/src/lib.rs:181-190 | Two devices that each run the key agreement can talk in both directions exactly when secret, session and both public keys agree. |
| `SecureChannel.SecureChannel.constructor` | desktop-agent/crates/crypto/src/lib.rs:156-177 | The channel built is the model's for those inputs. |
| `SecureChannel.SecureChannel.Seal` | desktop-agent/crates/crypto/src/lib.rs:193-214 | Frame, counter and cipher log after sealing; exhaustion changes nothing and releases nothing. |
| `SecureChannel.SecureChannel.Open` | desktop-agent/crates/crypto/src/lib.rs:218-247 | Result and filter after opening; the filter moves only on an authentic frame. |
| `RefreshTokens.ChainIsAPath` | backend/services/auth/internal/service/auth_service.go:149-157 | In every run a login's tokens form one path in issue order, each but the last revoked and replaced by exactly the next, and no token is in two paths. |
| `RefreshTokens.OnlyNewestUnrevoked` | backend/services/auth/internal/service/auth_service.go:154 | At most one token of a login is not revoked, and it is the newest. |
| `RefreshTokens.RedeemedOnce` | backend/services/auth/internal/service/auth_service.go:134-157 | No token is redeemed twice, and a redeemed one stays revoked. |
| `RefreshTokens.RefreshSucceedsIff` | backend/services/auth/internal/service/auth_service.go:123-158 | Exactly when a refresh succeeds, and the two rows it then changes. |
| `RefreshTokens.ReuseLocksOut` | backend/services/auth/internal/service/auth_service.go:134-139 | After a revoked token is presented, every token of its user is refused through any further calls until that user signs in again. |
| `RefreshTokens.LogoutIsFinal` | backend/services/auth/internal/service/auth_service.go:161-170 | A token logged out stays revoked and is refused as reuse through any further calls, whatever it is presented with; the logout changes no other row and nothing else. |
| `RefreshTokens.EmptyLogout` | backend/services/auth/internal/service/auth_service.go:161-170 | A logout with a token that does not verify, or is not stored, changes nothing. |
| `RefreshTokens.SignInThenRefresh` | backend/services/auth/internal/service/auth_service.go:210-243 | A sign-in succeeds exactly when id and hash are new; the token it stores is redeemed exactly by its text, before its expiry, if the successor can be stored. |
| `RefreshTokens.RefusalEffect` | backend/services/auth/internal/service/auth_service.go:123-147 | A refused refresh changes nothing, except that a revoked token revokes its user's tokens and no other user's. |
| `RefreshTokens.RunKeeps` | backend/services/auth/internal/service/auth_service.go:123-243 | Chains, places, rows and redemptions are sound after any calls. |
| `AuthService.RefreshRepo.Create` | backend/services/auth/internal/repository/postgres.go:100-108 | Inserts unless the id or the token hash is already there. |
| `AuthService.RefreshRepo.GetByID` | backend/services/auth/internal/repository/postgres.go:111-128 | The row, or not found. |
| `AuthService.RefreshRepo.Revoke` | backend/services/auth/internal/repository/postgres.go:131-151 | Revokes an unrevoked row only; an unknown id is the only error. |
| `AuthService.RefreshRepo.RevokeAllForUser` | backend/services/auth/internal/repository/postgres.go:154-160 | Every token of the user ends up revoked, nobody else's. |
| `AuthService.Service.Mint` | backend/services/auth/internal/service/auth_service.go:217-243 | Persists the new token's hash or fails without a change. |
| `AuthService.Service.IssueTokens` | backend/services/auth/internal/service/auth_service.go:210-213 | Store and result are the rotation model's sign-in. |
| `AuthService.Service.Refresh` | backend/services/auth/internal/service/auth_service.go:123-158 | Store and result are the rotation model's refresh, on every path. |
| `AuthService.Service.Logout` | backend/services/auth/internal/service/auth_service.go:161-170 | Revokes without a successor; invalid input changes nothing. |
| `TrustTheorems.KeyNeverMoves` | backend/services/device/internal/repository/postgres.go:43-64 | Over every run a public key belongs to one device and one owner for ever. |
| `TrustTheorems.RegisterExistingKey` | backend/services/device/internal/repository/postgres.go:46-61 | Registering another user's key is refused without a change; one's own gives the same device back, unrevoked. |
| `TrustEffects.RegisterNewKey` | backend/services/device/internal/repository/postgres.go:43-64 | A new key under a free id gives the user a fresh unrevoked device of that kind and changes no other. |
| `TrustTheorems.OneRowPerPair` | backend/services/pairing/internal/repository/postgres.go:57-69 | A (mobile, desktop) pair has at most one row. |
| `TrustTheorems.SessionUserOwnsDevices` | backend/services/session/internal/service/session_service.go:78-109 | A session's user is its pairing's user and owns both devices. |
| `TrustTheorems.TicketsGoToOwners` | backend/services/session/internal/service/session_service.go:152-174 | Every ticket issued, for either role, goes to the owner of both devices of its session. |
| `TrustTheorems.RevocationCascades` | backend/services/device/internal/repository/postgres.go:97-128 | Revoking a device leaves no active pairing with it, although the cascade looks at the caller's pairings only. |
| `TrustEffects.RevokeDeviceEffect` | backend/services/device/internal/repository/postgres.go:97-128 | From every reachable state a device is revoked exactly by its owner while unrevoked; every pairing with it ends up revoked, and no other pairing, device or session changes. |
| `TrustEffects.RevokePairingEffect` | backend/services/pairing/internal/repository/postgres.go:94-106 | From every reachable state a pairing is revoked exactly by its user while active; only its status changes, and an error changes nothing. |
| `TrustEffects.RevokedByItsUser` | backend/services/pairing/internal/repository/postgres.go:94-106 | After that no session starts on it, through any calls by anybody, until its user confirms from its mobile again. |
| `TrustTheorems.RevokedStaysClosed` | backend/services/session/internal/service/session_service.go:78-109 | A revoked pairing stays revoked and gets no new session, through any calls by anybody, until its user confirms a challenge from its mobile again. |
| `TrustTheorems.ActiveMobileUnrevoked` | backend/services/device/internal/repository/postgres.go:97-128 | In every run the mobile of an active pairing is its user's and not revoked. |
| `TrustTheorems.StaleWasConfirmedLate` | backend/services/pairing/internal/service/pairing_service.go:181-194 | In every run an active pairing with a revoked desktop was confirmed at some call when the desktop was revoked already. |
| `TrustTheorems.ConfirmedPairing` | backend/services/pairing/internal/service/pairing_service.go:147-203 | A confirmed pairing is active, the user's own, with an unrevoked mobile; the desktop is revoked exactly if it was before. |
| `TrustTheorems.ConfirmAfterRevocation` | backend/services/pairing/internal/service/pairing_service.go:181-194 | A confirmable challenge stays confirmable after its desktop is revoked, and then yields an active pairing with a revoked desktop. |
| `TrustTheorems.ActivePairingWithRevokedDesktop` | backend/services/pairing/internal/service/pairing_service.go:181-194 | Such a run from the empty state: register both devices, initiate, revoke the desktop, confirm. |
| `TrustInvariants.PendingNewestFirst` | backend/services/session/internal/repository/postgres.go:114-141 | The sessions listed for a device are its newest connecting ones of that user, newest first, each once; one is missing only when the limit is reached. |
| `TrustTheorems.PollGives` | backend/services/session/internal/service/session_service.go:152-174 | In every run a poll gives its user at most ten agent tickets, each for a different session still connecting whose pairing targets that desktop, and below ten one for every such session. |
| `TrustTheorems.ConfirmSucceedsIff` | backend/services/pairing/internal/service/pairing_service.go:147-203 | A challenge is confirmed exactly when it is pending, the user's, unexpired, the code matches and the mobile is the user's unrevoked mobile; then it is gone. |
| `TrustEffects.InitiateThenConfirm` | backend/services/pairing/internal/service/pairing_service.go:94-203 | From every reachable state: a challenge minted at now and confirmed after dt, with one of the user's mobiles, succeeds exactly with the code it was minted with, at a service time up to now + ttl, and dt up to ttl; it pairs that mobile with that desktop. |
| `TrustEffects.InitiateIff` | backend/services/pairing/internal/service/pairing_service.go:94-113 | A challenge is minted exactly for a non-blank, own, unrevoked desktop; a refusal changes nothing. |
| `TrustEffects.PendingIff` | backend/services/pairing/internal/store/redis.go:29-57 | A challenge is still pending after dt exactly if dt is at most its time to live, or it has none. |
| `TrustEffects.ConfirmFailureEffect` | backend/services/pairing/internal/service/pairing_service.go:147-194 | What a failed confirmation leaves: when the challenge is burned, when the guess is counted, and that nothing else changes. |
| `TrustEffects.StartThenPoll` | backend/services/session/internal/service/session_service.go:78-125 | A session starts exactly on the user's own active pairing under a new id; it is connecting, its ticket a controller's, and the next poll for the pairing's desktop hands it to the agent first. |
| `TrustEffects.EndThenPoll` | backend/services/session/internal/service/session_service.go:177-193 | A user ends exactly their own sessions, a failed one staying failed; ending again changes nothing, and no poll hands the ended session out. |
| `TrustInvariants.RunEvolves` | backend/services/device/internal/repository/postgres.go:43-128 | Rows are never deleted and never change key, owner, devices or pairing. |
| `ChallengeBudget.GuessBudget` | backend/services/pairing/internal/store/redis.go:61-71 | Over every run a challenge is rejected for a wrong code at most 2 maxAttempts - 1 times and confirmed at most once; the counter is below the limit while the challenge is pending and, until its last half second, equal to the rejections. |
| `ChallengeBudget.LimitHoldsUnlessRestarted` | backend/services/pairing/internal/service/pairing_service.go:171-179 | maxAttempts bounds the rejections in every run in which no wrong guess met an expired counter; where one did, guessing on exceeds it while the challenge is pending. |
| `ChallengeBudget.WithinBudgetIff` | backend/services/pairing/internal/service/pairing_service.go:171-179 | From any reachable state, repeating a wrong guess stays within maxAttempts exactly when the counter equals the rejections so far. |
| `ChallengeBudget.OverBudget` | backend/services/pairing/internal/store/redis.go:66-69 | For every limit of two or more, a run that reaches the bound 2 maxAttempts - 1: guesses up to one below the limit 0.6 seconds in, more once the counter has expired. |
| `ChallengeBudget.LimitIsBoundIff` | backend/services/pairing/internal/service/pairing_service.go:171-179 | maxAttempts bounds the rejections in all runs exactly when it is one. |
| `TrustEffects.CounterExpiry` | backend/services/pairing/internal/store/redis.go:61-71 | With half a second or more left the counter expires within half a second of its challenge; with less it keeps the expiry it had. |
| `TrustEffects.FirstGuessIsOne` | backend/services/pairing/internal/store/redis.go:28-41 | Whatever was counted under an id, the first wrong guess after saving a challenge counts as one. |
| `ChallengeBudget.OthersCannotTouch` | backend/services/pairing/internal/service/pairing_service.go:161-163 | Another user's attempt, right code or wrong, changes nothing at all. |
| `ChallengeBudget.GoneForGood` | backend/services/pairing/internal/store/redis.go:74-79 | A challenge that is gone never comes back, and collects no more rejections. |
| `ChallengeBudget.BurnedAtLimit` | backend/services/pairing/internal/service/pairing_service.go:62-65 | With a limit configured, or 5 when that is not positive, a fresh challenge guessed wrong k times in a row is still pending exactly if k is below that limit. |
| `TrustServices.DeviceRepo.Register` | backend/services/device/internal/repository/postgres.go:43-64 | Guarded upsert: tables and result are the model's. |
| `TrustServices.DeviceRepo.Revoke` | backend/services/device/internal/repository/postgres.go:97-128 | Device and cascade in one transaction, or nothing. |
| `TrustServices.PairingRepo.DeviceForUser` | backend/services/pairing/internal/repository/postgres.go:23-38 | The device's kind when it is the user's and not revoked. |
| `TrustServices.PairingRepo.UpsertActivePairing` | backend/services/pairing/internal/repository/postgres.go:57-68 | Inserts the pair's row or reactivates it. |
| `TrustServices.PairingRepo.RevokePairing` | backend/services/pairing/internal/repository/postgres.go:94-106 | Revokes the user's own unrevoked pairing, else not found. |
| `TrustServices.SessionRepo.PairingForUser` | backend/services/session/internal/repository/postgres.go:24-39 | The pairing when it is the user's, whatever its status. |
| `TrustServices.SessionRepo.Create` | backend/services/session/internal/repository/postgres.go:71-78 | Adds the row as the newest session. |
| `TrustServices.SessionRepo.PendingSessionsForDevice` | backend/services/session/internal/repository/postgres.go:114-141 | The newest answerable sessions, newest first, the limit corrected to 10 outside 1 to 50. |
| `TrustServices.SessionRepo.EndSession` | backend/services/session/internal/repository/postgres.go:144-158 | Ends a session that is not over yet, whatever its status; one that ended or failed is returned as it is. |
| `TrustServices.RedisStore.Save` | backend/services/pairing/internal/store/redis.go:29-41 | Stores the challenge with its expiry and clears the counter. |
| `TrustServices.RedisStore.Get` | backend/services/pairing/internal/store/redis.go:44-57 | The pending challenge, if any. |
| `TrustServices.RedisStore.RecordFailedAttempt` | backend/services/pairing/internal/store/redis.go:61-71 | Increments the counter; its expiry becomes the challenge's remaining time in seconds, to the nearest, and is left as it is when that is none or zero. |
| `TrustServices.RedisStore.Consume` | backend/services/pairing/internal/store/redis.go:74-79 | Deletes both keys. |
| `TrustServices.PairingService.Initiate` | backend/services/pairing/internal/service/pairing_service.go:94-137 | State and result are the model's, on every error path. |
| `TrustServices.PairingService.Reject` | backend/services/pairing/internal/service/pairing_service.go:171-179 | A wrong guess is counted and burns the challenge at the limit. |
| `TrustServices.PairingService.Confirm` | backend/services/pairing/internal/service/pairing_service.go:147-203 | State and result are the model's, on every error path. |
| `TrustServices.SessionService.CreateSession` | backend/services/session/internal/service/session_service.go:78-125 | A session and a controller ticket for the user's own active pairing, else the error and no change. |
| `TrustServices.SessionService.PendingForDevice` | backend/services/session/internal/service/session_service.go:152-174 | One agent ticket per pending session, in order. |
| `TrustServices.SessionService.EndSession` | backend/services/session/internal/service/session_service.go:177-193 | Idempotent end of the user's own session; a failed one stays failed. |
| `FrameStream.DeliversWhatIsReported` | desktop-agent/crates/media/src/rtc.rs:279-320 | For any run of calls, any send failing and ids wrapping, the viewer's assembler, from any state, puts out exactly the non-empty frames whose call returned Ok(true), in order. |
| `FrameStream.DeliveredIffNoneEmpty` | desktop-agent/crates/media/src/rtc.rs:299-319 | It equals the Ok(true) frames exactly when none of them is empty: an empty frame sends nothing and still reports Ok(true). |
| `FrameStream.CallEffect` | desktop-agent/crates/media/src/rtc.rs:279-320 | Exactly when a call is dropped, fails or reports Ok(true), how many of its messages go out, and which they are, for every run of calls. |
| `FrameStream.GapLosesFrame` | mobile/lib/features/viewer/application/webrtc_session.dart:303-313 | A message that is neither the first of a frame nor the next of the current one loses that frame: nothing is put out until another frame starts, whatever follows. |
| `FrameStream.JunkIsIgnored` | mobile/lib/features/viewer/application/webrtc_session.dart:283-288 | A message too short for a header, or announcing no pieces, changes nothing. |
| `FrameStream.NeverMixesFrames` | mobile/lib/features/viewer/application/webrtc_session.dart:296-327 | Whatever messages of up to 2^32 calls are lost, repeated or reordered, every frame put together is one reported as sent. |
| `FrameStream.MessagesFit` | desktop-agent/crates/media/src/rtc.rs:89-94 | Every message is at most 16384 bytes. |
| `FrameStream.MessageReadsBack` | desktop-agent/crates/media/src/rtc.rs:310-314 | The casts of index and count lose nothing and the receiver reads the header and payload back. |
| `FrameStream.FlattenChunks` | desktop-agent/crates/media/src/rtc.rs:309 | The pieces concatenate to the frame. |
| `FrameStream.ChunksFit` | desktop-agent/crates/media/src/rtc.rs:299-309 | There are as many pieces as announced, none empty, none too long. |
| `FrameStream.IdsDistinct` | desktop-agent/crates/media/src/rtc.rs:307 | Among 2^32 calls no two frames share an id. |
| `FrameStream.AgentPeer.SendFrame` | desktop-agent/crates/media/src/rtc.rs:279-320 | Next id, messages sent and result of a call, for every state of the channel and every point of failure. |
| `FrameStream.AgentPeer.SendChunks` | desktop-agent/crates/media/src/rtc.rs:309-319 | The loop sends the frame's messages in order up to the first failure. |
| `FrameStream.FrameAssembler.OnFrameChunk` | mobile/lib/features/viewer/application/webrtc_session.dart:282-327 | Assembler state and completed frame after any message. |
| `Bitrate.StaysInRange` | desktop-agent/crates/transport/src/bitrate.rs:127-129 | For every sample stream the target stays within the limits. |
| `Bitrate.OrderKeptIff` | desktop-agent/crates/transport/src/bitrate.rs:104-125 | For every rounding of the floats: two controllers given the same sample keep their order, for all samples and targets, exactly when the raise wraps for none or for all of the range. |
| `Bitrate.RunKeepsOrder` | desktop-agent/crates/transport/src/bitrate.rs:104-125 | And then over whole streams. |
| `Bitrate.LossDecays` | desktop-agent/crates/transport/src/bitrate.rs:107-111 | n samples of at least 10% loss leave the target at most max(min, 0.850001^n times the start), rounding included. |
| `Bitrate.LossyStep` | desktop-agent/crates/transport/src/bitrate.rs:107-111 | A lossy sample never raises the target, takes at least 14.9999% off down to the minimum and, the dropped fraction aside, at most 40.02%. |
| `Bitrate.LossNeverHelps` | desktop-agent/crates/transport/src/bitrate.rs:104-125 | More loss never gives a higher target, with no wrap and no estimate below the target. |
| `Bitrate.DirectionIff` | desktop-agent/crates/transport/src/bitrate.rs:104-119 | Inside the limits, with no estimate and no wrap, the target falls exactly from 10% loss on, rises exactly up to 2% with a round trip of at most 400 ms, and otherwise stays. |
| `Bitrate.HeldBetween` | desktop-agent/crates/transport/src/bitrate.rs:119 | Between the thresholds, on a slow round trip without heavy loss and on a NaN loss the target is unchanged, whatever the limits. |
| `Bitrate.CleanGrows` | desktop-agent/crates/transport/src/bitrate.rs:112-118 | A clean stream without estimates never lowers the target and from 13 on multiplies it by 1.04 a sample up to the maximum. |
| `Bitrate.EnoughSamples` | desktop-agent/crates/transport/src/bitrate.rs:112-118 | 25 max / target such samples reach the maximum. |
| `Bitrate.ReachesMaxIff` | desktop-agent/crates/transport/src/bitrate.rs:112-118 | The maximum is reached exactly from 13 up: below, 8% rounds down to nothing. |
| `Bitrate.EstimateCaps` | desktop-agent/crates/transport/src/bitrate.rs:114-116 | A clean sample's estimate caps the target, except at the minimum. |
| `Bitrate.EstimateOnlyCaps` | desktop-agent/crates/transport/src/bitrate.rs:114-116 | An estimate at or above what a clean sample would give changes nothing; a lower one is the result, or the minimum. |
| `Bitrate.RaiseWraps` | desktop-agent/crates/transport/src/bitrate.rs:113 | No target up to 3976800000 and every one from 3976900000 overflows 32 bits; what is left then is below 350000000. |
| `Bitrate.FactorBounds` | desktop-agent/crates/transport/src/bitrate.rs:109-110 | For any loss the factor is between 0.5999 and the constant 0.85, rounding included. |
| `Bitrate.FactorEnds` | desktop-agent/crates/transport/src/bitrate.rs:109-110 | At the 10% threshold the factor is 0.85 itself and at total loss its lower end. |
| `Bitrate.FactorIsLinear` | desktop-agent/crates/transport/src/bitrate.rs:109-110 | In between it is the straight line from 0.85 at 10% to 0.60 at 100%, to within a millionth, rounding included. |
| `Bitrate.StartsNearest` | desktop-agent/crates/transport/src/bitrate.rs:89-92 | A controller starts at the value nearest its start value within the limits. |
| `Bitrate.TierMonotone` | desktop-agent/crates/transport/src/bitrate.rs:133-140 | A higher target never gets a lower tier. |
| `Bitrate.TierRisesIff` | desktop-agent/crates/transport/src/bitrate.rs:133-140 | The tier rises between two targets exactly if 800 kbps, 2.5 Mbps or 5 Mbps lies in between. |
| `Bitrate.AdaptiveBitrateController.constructor` | desktop-agent/crates/transport/src/bitrate.rs:89-92 | Starts at the start value clamped. |
| `Bitrate.AdaptiveBitrateController.Observe` | desktop-agent/crates/transport/src/bitrate.rs:104-125 | New target and tier after any sample, NaN loss included, for any rounding. |
| `Bitrate.AdaptiveBitrateController.Lower` | desktop-agent/crates/transport/src/bitrate.rs:107-111 | The decrease branch settles the target the model proposes. |
| `Bitrate.AdaptiveBitrateController.Raise` | desktop-agent/crates/transport/src/bitrate.rs:112-118 | So does the increase branch, with its wrapping sum and the estimate's cap. |
| `Bitrate.AdaptiveBitrateController.LossFactor` | desktop-agent/crates/transport/src/bitrate.rs:109-110 | The factor computed is the model's and lies between 0.5999 and 0.8500001. |
| `Bitrate.AdaptiveBitrateController.SetTarget` | desktop-agent/crates/transport/src/bitrate.rs:127-129 | Clamps into the limits. |
| `Scaling.ScaledPixel` | desktop-agent/crates/capture/src/frame.rs:52-60 | Every byte of pixel (x, y) of the result is that of source pixel (x sw / dw, y sh / dh), rounded down, and is read in bounds. |
| `Scaling.ShortcutAgrees` | desktop-agent/crates/capture/src/frame.rs:44-46 | The equal-size shortcut gives what the loops would. |
| `Scaling.ValidCovers` | desktop-agent/crates/capture/src/frame.rs:59 | A valid non-empty source is never read out of bounds. |
| `Scaling.NearestOrdered` | desktop-agent/crates/capture/src/frame.rs:54-56 | Sampling keeps order and takes no row or column twice when shrinking. |
| `Scaling.HeightBoundIff` | desktop-agent/crates/capture/src/frame.rs:74-80 | The result's height is within the bound exactly when the bound is at least 2. |
| `Scaling.DownscaledIsSound` | desktop-agent/crates/capture/src/frame.rs:74-80 | The result is valid, non-empty and even-sized, with the source's timestamp and the fitted dimensions. |
| `Scaling.FittedSides` | desktop-agent/crates/capture/src/frame.rs:23-34 | An empty frame is fitted to 2x2, one within the bound to its sides' even parts, and a higher one to the bound's even part as height. |
| `Scaling.NeverGrowsIff` | desktop-agent/crates/capture/src/frame.rs:14-34 | No side grows exactly when both sides of the source are at least 2. |
| `Scaling.IdempotentIff` | desktop-agent/crates/capture/src/frame.rs:74-80 | A second pass with the same bound changes nothing exactly when the bound is not 1 or the width scaled to height 1 is at most 3. |
| `Scaling.HalvedAgain` | desktop-agent/crates/capture/src/frame.rs:74-80 | An instance of the failure: a 100x2 frame bounded to height 1 becomes 50 wide, and 24 on the second pass. |
| `Scaling.AspectKept` | desktop-agent/crates/capture/src/frame.rs:30-32 | With both f64 roundings, the width follows the height's ratio to within 1.500001 pixels, the floor of 2 aside. |
| `Scaling.RoundsToNearest` | desktop-agent/crates/capture/src/frame.rs:30-31 | With both f64 roundings, the rounded width is within 0.500001 of the exact one. |
| `Scaling.ScaleBgraNearest` | desktop-agent/crates/capture/src/frame.rs:41-69 | The method returns the scaled frame, requiring only that the last pixel it samples exists. |
| `Scaling.ScaleLoops` | desktop-agent/crates/capture/src/frame.rs:48-61 | The nested loops fill the buffer with exactly the scaled pixels. |
| `Scaling.DownscaleToMaxHeight` | desktop-agent/crates/capture/src/frame.rs:74-80 | Returns the source when it fits and the scaled frame otherwise, asking nothing of a frame that fits. |
| `PasswordHash.DecodeInvertsEncode` | backend/pkg/crypto/password.go:82-113 | Parsing inverts printing for all parameters, salts and keys. |
| `PasswordHash.TamperedHash` | backend/pkg/crypto/password.go:82-113 | A printed hash with another name or a part too many is invalid, with another version incompatible; what precedes the first dollar sign is ignored. |
| `PasswordHash.VerifyAcceptsIff` | backend/pkg/crypto/password.go:47-78 | A hash accepts the password it was made from, and another exactly when the derived keys are equal; it never fails to parse. |
| `PasswordHash.HashVerifiesIff` | backend/pkg/crypto/password.go:47-78 | A password gets a hash, and one that accepts it, exactly when it is not empty and the derivation takes the parameters. |
| `PasswordHash.EncodeInjective` | backend/pkg/crypto/password.go:59-64 | Different parameters, salts or keys print differently. |
| `PasswordHash.SplitInvertsJoin` | backend/pkg/crypto/password.go:83 | Splitting at the dollar signs inverts joining parts without one. |
| `PasswordHash.Base64RoundTrip` | backend/pkg/crypto/password.go:100-107 | Unpadded base64 decodes what it encodes and prints no dollar sign. |
| `PasswordHash.ScanParamsShown` | backend/pkg/crypto/password.go:95-98 | The parameter field scans back to the three numbers printed. |
| `PasswordHash.ScanShown` | backend/pkg/crypto/password.go:88-96 | A printed number followed by no digit scans back, within the verb's integer size. |
| `PasswordHash.ValueOfShow` | backend/pkg/crypto/password.go:60-62 | Decimal printing and reading are inverse. |
| `Truncate.LongestPrefixKept` | desktop-agent/crates/devtools/src/runner.rs:101-112 | The result is well-formed and is the string, or its longest well-formed prefix of at most 16384 bytes and the marker; at most three bytes are given up. |
| `Truncate.BoundaryIff` | desktop-agent/crates/devtools/src/runner.rs:105 | In a well-formed string the character boundaries are exactly the places where cutting leaves a well-formed prefix. |
| `Truncate.BoundaryNearby` | desktop-agent/crates/devtools/src/runner.rs:104-107 | Every position is at most three bytes past a boundary, so the loop takes at most three steps. |
| `Truncate.CutPointIsLastBoundary` | desktop-agent/crates/devtools/src/runner.rs:104-107 | The loop stops at the last boundary at or below the limit. |
| `Truncate.Cut` | desktop-agent/crates/devtools/src/runner.rs:101-112 | The loop and the edits return that result. |

## Left out

- Cryptographic primitives: AES-GCM, HKDF, X25519, SHA-256, JWT and Argon2 are ideal or abstract functions. A ciphertext computed just before counter exhaustion is found is never released, so it is not in the cipher's log.
- Random and generated values (UUIDs, codes, salts, ciphertexts) and clocks are parameters; only challenge ids are required to be fresh.
- JSON, SQL and Redis wire formats: envelopes arrive decoded, tables and keys are maps. An envelope's text is kept so that relaying is verbatim.
- HTTP, WebSocket, WebRTC, JPEG, capture, input and logging code; device names, platforms, push tokens, heartbeats and key-format checks; listing calls.
- Read limits, deadlines and liveness of sockets: a connection may fail or stall at any time, so only safety is stated.
- HubModel.Join: the two presence sends are part of the join's step; they happen under the hub lock and touch channels that no one else can close meanwhile, but a relay's send to the older peer could fall between them and the registration.
- Hub.Hub.Relay: lookup, send and eviction run undisturbed here; the source releases the hub lock between them, which the state machine interleaves and Hub.StepsArePieces ties to the class piece by piece.
- Hub.Hub.Dispatch: undisturbed for the same reason.
- Handshake.ControllerAgreement: clients are over-approximated, since a connection may dispatch what its client sent in any order and any number of times; nonces are arbitrary.
- RefreshTokens.ChainIsAPath: service calls are atomic and their storage calls succeed; the code reads and then writes without a transaction, so interleaved refreshes are not covered.
- Trust.Step: service calls are atomic and their storage calls succeed, apart from unique-key violations.
- Trust.SecondsLeft: that TTL answers in seconds, rounded to the nearest, is the behaviour of Redis and its client and is not in the repository's own code.
- Session events, end reasons and ICE servers; which code moves a session to initiating, in progress or failed is not modelled, so any move may happen at any time.
- Trust.Blank: trims ASCII white space only.
- SecureStream.OpensCounterpartsStream: needs that no two ends of one role share all handshake inputs; two channels rebuilt from the same inputs would share keys (see SecureStream.NonceReusedIff).
- The mobile client's own copy of the channel (mobile/lib/features/security/secure_channel.dart) is not modelled; its counter is a Dart integer without an exhaustion check.
- FrameStream.AgentPeer.SendFrame: calls do not overlap, because the channel's lock is held for the whole call; what the viewer does with a completed frame is left out.
- Floats.Binary32: overflow, infinities as results and subnormal numbers do not occur in the code modelled; an infinite loss is clamped like any number. Overflow of the one integer sum wraps as in a release build.
- Scaling.ScaleBgraNearest: buffers are assumed to fit memory.
- PasswordHash.ScanUint: the scanner's rules are those of Go's fmt for the `%d` verb; input after the last number is ignored, as there.
- PasswordHash.VerifyPassword: constant-time comparison is plain equality; a key derivation that panics is an error value.
- Truncate.Cut: the lossy UTF-8 conversion before it is left out; its input is any well-formed string.
- The devtools planner and registries, the HID key table, the session dedup set of the agent and e-mail normalisation.

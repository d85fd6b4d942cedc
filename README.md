# chores-suck in Dafny

A model of the core of chores-suck, a web service in Go that divides a
household's chores among its members. A small C++ day counter sits beside
it in the same repository. The model has five parts.

- **The distribution engine.** `Randomize` shuffles the chores in place.
  It computes a threshold, `floor(sum(minutes / 5) / len(people))` in
  `uint32` arithmetic. Then a round-robin pass hands out the chores.
  `Rotate` sorts the people by ID and moves every chore to the next person
  in that ring. The repository has five copies of this code; they differ in
  the type of person and in how scores are kept.
  - Three copies, `src/core/chores.go`, `src/core/chores/chores.go` and
    `src/core/dist/distribute.go`, keep a score map with one `if ... ||
    allChecked` test. They are modelled in `CoreDistribution`.
  - Two copies, `src/chores/chores.go` and `webserver/src/chores/chores.go`,
    keep a `uint16` score on each person and use two separate `if`s. They
    are modelled in `ScoreDistribution`.
  - Shared parts have their own modules: the shuffle (`Shuffling`), the
    threshold (`Threshold`), the round-robin index (`RoundRobin`) and the
    successor map (`Rings`).
- **Permissions** (`PermissionBits`, `Permissions`). The permission word of
  a role is a 64-bit Go `int`, covering `Can`, `Set`, `SetAll` and
  `CanEdit`. The model also covers the SuperRole of a membership: the
  bitwise OR of the words of its roles.
- **The services** of `src/core` (`GroupServices`, `RoleServices`,
  `UserServices`, `ChoreServices`). They run over an abstract repository,
  `Storage.Repository`, which records every call made to it. What the
  repository answers is fixed when it is built. Each service method states
  which calls it makes, in order, and what it returns, for every answer the
  repository can give. This is how the model shows that a permission or
  reserved-role guard fires before any call that changes the store.
- **The form validators** of the web layer (`FormValidation`, `AuthForms`,
  `GroupForms`). The two regular expressions are written out as
  predicates, and each is proved equal to a plainer description of the
  strings it accepts.
- **The day counter** of `main.cpp` (`DayCounter`). Its unsigned arithmetic
  wraps modulo 2^32.

The code is imperative in the source, and the model keeps that form. The
shuffle, the passes and the rotations are methods over arrays, with loop
invariants. Each is proved against a function of its input; the
properties are then lemmas about those functions. The role object whose
permission word `Set` and `SetAll` change is a class. The repository and
the day counter's state are classes too.

Randomness and the clock come in as parameters:
- the draws of `rand.Intn` are a sequence `js`, with `js[i]` the draw of
  iteration `i`;
- `time.Now()` is a number `now`.

## Model

| member | source | states |
|---|---|---|
| `GoValues.U32` | src/core/chores.go:148 | a `uint32` conversion keeps the low 32 bits, so a value that already fits is unchanged |
| `GoValues.U16` | src/chores/chores.go:57 | `uint16` addition wraps modulo 2^16, so a value that fits is unchanged |
| `GoValues.Div5` | src/core/chores.go:148 | Go's `Duration / 5` truncates toward zero, for negative durations too: the quotient is bracketed from the correct side |
| `GoValues.Next` | src/core/chores.go:183-186 | the slot after `i` in a ring of `n` is again a slot of the ring |
| `CoreTypes.FindMember` | src/core/groups.go:122 | the lookup of a user's membership: no result exactly when no membership belongs to the user, otherwise the first one that does |
| `CoreTypes.FindMemberNamed` | src/core/roles.go:52-55 | the lookup by username: no result exactly when no member has that username, otherwise the first one who does |
| `CoreTypes.FindRole` | src/core/groups.go:237-239 | the lookup of a stored role by ID: no result exactly when no role has the ID, otherwise the first role that has it |
| `CoreTypes.FindChore` | src/core/chores.go:69 | the lookup of a chore by name: no result exactly when no chore has that name, otherwise the first chore that has it |
| `CoreTypes.FindMemberAt` | src/core/groups.go:136-142 | a search that stops at the first membership of the user finds what the lookup does |
| `PermissionBits.HasBitIsIndex` | src/core/types.go:89-92 | `Permissions & (1 << bit) != 0` holds exactly when bit `bit` of the word is set |
| `PermissionBits.WithBitIsUpdate` | src/core/types.go:94-102 | both branches of `Set` (OR with the mask, AND with its complement) replace exactly bit `bit` by `value` |
| `PermissionBits.SetThenCan` | src/core/types.go:94-102 | after `Set(bit, value)`, `Can(bit)` answers `value` |
| `PermissionBits.SetKeepsOtherBits` | src/core/types/role.go:34-42 | `Set(bit, value)` does not change the answer of `Can` for any other bit |
| `PermissionBits.SetIdempotent` | src/core/types.go:94-102 | setting the same bit to the same value twice is the same as once |
| `PermissionBits.AllBitsCan` | src/core/types/role.go:44-49 | after `SetAll(value)`, `Can` answers `value` for every bit |
| `PermissionBits.CanEditIffEditingBit` | src/core/types.go:111-116 | `CanEdit` holds exactly when EditMembers, EditChores or EditGroup can be done |
| `PermissionBits.CanEditIgnoresBit3` | src/core/types/role.go:51-56 | bit 3 (EditRoles, or DeleteGroup in this copy) never changes `CanEdit`, and a role with only that bit cannot edit |
| `PermissionBits.OrBit` | src/core/groups.go:184-186 | a bit of the OR of `a` and `b` is set exactly when it is set in `a` or in `b` |
| `PermissionBits.ZeroHasNoBit` | src/core/types.go:104-107 | the zero word that `SetAll` starts from grants nothing |
| `Permissions.Role.constructor` | src/core/groups.go:63 | a role built from a literal has the zero permission word and ID 0 |
| `Permissions.Role.Record` | src/core/types.go:64-71 | the value copy of a role answers `Can` as the role does |
| `Permissions.Role.Set` | src/core/types.go:94-102 | the new word is the old one with bit `bit` replaced by `value`; `Can(bit)` is then `value`, every other bit answers as before, and the other fields keep their values |
| `Permissions.Role.SetAll` | src/core/types.go:104-109 | every bit of the word becomes `value` (`^0` or `0`), so `Can` answers `value` for every bit; the other fields keep their values |
| `Permissions.OrAllCan` | src/core/groups.go:184-186 | a bit is set in the OR of the roles' words exactly when some role can do it |
| `Permissions.OrIntoCan` | src/core/users.go:98-100 | ORing the roles into a SuperRole that already holds a word keeps that word's bits and adds exactly the roles' bits |
| `Permissions.SuperRoleCan` | src/core/groups.go:112-119 | the SuperRole can do exactly what one of the member's roles can do, and gets chores exactly when one of them does |
| `Permissions.OrAssoc` | src/core/users.go:98-100 | ORing the words one at a time gives the same word in any grouping |
| `Permissions.OrZero` | src/core/groups.go:184-186 | ORing with the zero word changes nothing |
| `Permissions.OrInto` | src/core/users.go:98-100 | the loop that ORs every role's word into `perms` leaves a bit set exactly when it was set before or some role has it; from zero it gives the OR of the roles |
| `Storage.Repository.constructor` | src/core/groups.go:45-49 | a fresh repository has recorded no calls |
| `Storage.Repository.IdFor` | src/core/groups.go:65-70 | a record that was given no ID keeps Go's zero value |
| `Storage.Repository.Perform` | src/core/roles.go:42 | one call is appended to the record, and answered |
| `Storage.UntilFailure` | src/core/groups.go:51-99 | a chain of calls with early returns makes a prefix of its calls; every call before the last succeeded, and a chain cut short ends with a failing call |
| `Storage.FirstError` | src/core/groups.go:51-99 | such a chain succeeds exactly when none of its calls fails |
| `Storage.StopsAt` | src/core/groups.go:51-99 | a chain whose first failing call is call `k` makes calls `0..k` and returns the error of call `k` |
| `Storage.RunsThrough` | src/core/groups.go:51-99 | a chain none of whose calls fails makes every call and succeeds |
| `Storage.Step` | src/core/users.go:95-97 | one more call of a chain either ends it with the right error or extends its successful prefix |
| `Storage.Completed` | src/core/users.go:94-101 | a chain all of whose calls succeeded has finished without error |
| `GroupServices.ScanNames` | src/core/groups.go:217-221 | the loop over the group's roles finds a name exactly when some role has it |
| `GroupServices.NewRole` | src/core/groups.go:63-64 | a new role gets every permission bit when `SetAll(true)` is called on it and none otherwise |
| `GroupServices.CreateAssigned` | src/core/groups.go:65-73 | creating a role and then assigning it to the creator under the ID the store wrote back: the chain either stops with the right error or goes two calls further |
| `GroupServices.CreateGroup` | src/core/groups.go:51-99 | the calls made are exactly the eight planned calls up to and including the first that fails, and the error is that call's error |
| `GroupServices.CreateGroupRolesFor` | src/core/groups.go:63-96 | the calls for Owner, Admin and Default, each created and then assigned to the creator, stop at the first failure with its error |
| `GroupServices.CreateGroupRoles` | src/core/groups.go:51-99 | the plan creates the group, the creator's membership, Owner and Admin with every bit, and Default with no bit but with chores; each role is assigned to the creator under the ID the store gave it |
| `GroupServices.GetRoles` | src/core/groups.go:112-119 | one roles call is made; the roles are loaded only when it succeeds, and the SuperRole is rebuilt from the roles the membership then holds |
| `GroupServices.GetMembership` | src/core/groups.go:177-189 | the membership is loaded, then its roles; a failure stops the chain and is returned; on success a bit of the SuperRole is set exactly when it was set before or some role has it |
| `GroupServices.UpdateGroup` | src/core/groups.go:121-131 | `UpdateGroup` reaches the store only when the caller's roles load and grant EditGroup; otherwise "Insufficient permissions", with no call that changes the store |
| `GroupServices.CanEdit` | src/core/groups.go:133-153 | false for a non-member; for a member, exactly the `CanEdit` of its SuperRole |
| `GroupServices.DeleteMember` | src/core/groups.go:155-175 | the member is deleted only when the caller has EditMembers and the target holds no role named Owner; each refusal has its own message and makes no call that changes the store |
| `GroupServices.AddMember` | src/core/groups.go:191-204 | the membership is created only when the caller has EditMembers |
| `GroupServices.AddRole` | src/core/groups.go:206-226 | the role is created only when the caller has EditRoles and no role of the group has its name |
| `GroupServices.UpdateRole` | src/core/groups.go:228-247 | the role is updated only when the caller has EditRoles and the stored role exists and is not Owner, Admin or Default; an error in reloading the group's roles leaves the roles the group had |
| `GroupServices.GetChores` | src/core/groups.go:249-254 | the chores are loaded into the group exactly when the load succeeds |
| `RoleServices.RemoveMember` | src/core/roles.go:38-46 | nobody is removed from the Owner role, and then no call is made |
| `RoleServices.AddMember` | src/core/roles.go:48-60 | nobody is added to the Owner role, and only a member of the group is added; a refusal makes no call |
| `RoleServices.Update` | src/core/roles.go:66-85 | a reserved role is never changed; a renamed role must not take the name of any role of the group; a role that keeps its name is not checked |
| `RoleServices.CannotDelete` | src/core/roles.go:89 | the message is "Cannot delete ", the role's name, then " role" |
| `RoleServices.Delete` | src/core/roles.go:87-97 | a reserved role is never deleted and no call is made; any other role is deleted |
| `UserServices.Existence` | src/core/users.go:72-79 | a value is free only when the lookup answered `ErrNotFound`; any other answer counts as taken, and an error other than `ErrNotFound` is passed on |
| `UserServices.CheckEmailExists` | src/core/users.go:72-79 | one lookup by email, answered as `Existence` says |
| `UserServices.CheckUsernameExists` | src/core/users.go:81-88 | one lookup by username, answered as `Existence` says |
| `UserServices.CreateUser` | src/core/users.go:52-70 | the email is checked before the username, so a user with both taken gets `ErrEmailExists`; the user is created only when both lookups answered `ErrNotFound` |
| `UserServices.AggregateOne` | src/core/users.go:98-100 | aggregating membership `i` extends the aggregated prefix by one |
| `UserServices.AggregateAt` | src/core/users.go:95-100 | one membership's roles are loaded; on success they are ORed into its SuperRole and the others are unchanged, on failure the chain stops with that error |
| `UserServices.GetMemberships` | src/core/users.go:90-103 | memberships are loaded, then the roles of each in order; the first failing load stops the loop, and the memberships before it have their roles ORed into the SuperRole |
| `UserServices.AggregatedCan` | src/core/users.go:98-100 | a membership loaded with a zero SuperRole ends up with exactly the bits of its roles |
| `Shuffling.IntnIsFisherYates` | src/core/chores.go:141 | every draw of `rand.Intn(i)` lies in the range the algorithm documents |
| `Shuffling.Swap` | src/core/chores.go:142 | `s` with the elements at `i` and `j` exchanged; that this only rearranges is proved by `Shuffling.SwapPermutes` |
| `Shuffling.ShuffledFrom` | src/core/chores.go:140-143 | the sequence left by iterations `i` down to 1 of the loop; its meaning is proved by `Shuffling.ShuffledFromPermutes`, `Shuffling.ShuffledFromKeepsSuffix` and `Shuffling.ShuffledPermutes` |
| `Shuffling.Shuffle` | src/core/chores.go:140-143 | the in-place loop leaves the array as the specification of the shuffle says |
| `Shuffling.SwapPermutes` | src/core/chores.go:142 | a swap only rearranges |
| `Shuffling.ShuffledFromPermutes` | src/core/chores.go:140-143 | the remaining iterations only rearrange |
| `Shuffling.ShuffledPermutes` | src/chores/chores.go:35-38 | the result of the shuffle is a permutation of its input |
| `Shuffling.ShuffledFromKeepsSuffix` | src/core/chores/chores.go:29-32 | iterations `i` down to 1 never touch the positions above `i` |
| `Shuffling.ShuffledFromIgnoresLaterDraws` | src/core/dist/distribute.go:22-25 | iterations `i` down to 1 read only the draws of those iterations |
| `Shuffling.IntnMovesLast` | src/core/chores.go:140-143 | with the draws of `rand.Intn`, the last of two or more distinct chores always leaves its place |
| `Shuffling.IntnNeverIdentity` | webserver/src/chores/chores.go:30-33 | with the draws of `rand.Intn`, two or more distinct chores never keep their order |
| `Shuffling.FisherYatesReachesAll` | src/core/chores.go:133-137 | with the documented range `0 <= j <= i`, every permutation of the input is the outcome of some draws |
| `Shuffling.ReachFrom` | src/core/chores.go:133-137 | the draws from iteration `i` down can produce any arrangement of the first `i + 1` elements |
| `Shuffling.PlaceStep` | src/core/chores.go:133-137 | the element that belongs at `i` can be drawn from the unplaced prefix, and swapping it in leaves the rest to place |
| `Shuffling.DrawAt` | src/core/chores.go:140-143 | drawing `j` at iteration `i` and then following given draws gives what those draws give on the swapped sequence |
| `Shuffling.FisherYatesCanKeepOrder` | src/core/chores.go:133-137 | with the documented range, the order can stay unchanged |
| `Threshold.WeightSumSnoc` | src/core/chores.go:147-149 | one more iteration of the accumulating loop adds the truncated weight modulo 2^32 |
| `Threshold.WeightSumIsModularSum` | src/core/chores.go:147-149 | the `uint32` accumulator holds the true sum of the weights modulo 2^32, whatever their signs |
| `Threshold.MinScoreIsFloorAverage` | src/core/dist/distribute.go:28-32 | when the weights sum to less than 2^32, the threshold is the floor of their average: `people * t <= sum < people * (t + 1)` |
| `RoundRobin.SlotOf` | src/core/chores.go:155-167 | the index the loop has reached at iteration `i` is a slot of the ring |
| `RoundRobin.SlotIsMod` | src/chores/chores.go:50-54 | that index is `i % len(p)` |
| `RoundRobin.SlotInFirstLap` | src/core/chores.go:158-162 | in the first lap it is `i` itself |
| `RoundRobin.WrapCheck` | src/core/chores.go:159-162 | after the wrap check of iteration `i`, `rIndex` is the slot of iteration `i`, and `allChecked` holds exactly when `i >= len(p)` |
| `Rings.BuildRing` | src/core/chores.go:181-188 | the loop builds the successor map its specification describes |
| `Rings.RingUpToKeys` | src/core/chores.go:181-188 | the loop after `k` iterations has entries for exactly the first `k` IDs |
| `Rings.RingKeys` | src/chores/chores.go:77-84 | the successor map has an entry for exactly the IDs of the people |
| `Rings.RingUpToAt` | src/core/chores.go:181-188 | with distinct IDs, each entry written so far points to the next slot |
| `Rings.RingAt` | src/core/chores/chores.go:70-77 | with distinct IDs, person `i` maps to person `i + 1`, and the last maps to the first |
| `Rings.Advance` | src/core/chores.go:190-192 | `k` steps around a ring of `n` stay in the ring |
| `Rings.AdvanceWithinLap` | src/core/chores.go:190-192 | within one lap, `k` steps from `i` reach `i + k`, wrapped at most once |
| `Rings.RotatedSlots` | src/chores/chores.go:86-88 | rotating `k` times moves an assignee `k` slots along the ring |
| `Rings.FullCircle` | src/core/chores/chores.go:78-80 | with distinct IDs, `len(u)` rotations give every assignee its own chores back |
| `Rings.RotationMoves` | src/core/dist/distribute.go:71-73 | with two or more distinct IDs, a rotation always moves a chore to somebody else |
| `Rings.SingleRingIsIdentity` | src/chores/chores.go:77-84 | a ring of one person maps that person to itself |
| `Rings.MissingAssignee` | webserver/src/chores/chores.go:80-82 | an assignee whose ID is not among the people has no successor, and gets the zero value |
| `Rings.SuccessorIsNextLarger` | src/core/chores.go:177-188 | on distinct sorted IDs, the successor is the next larger ID, and after the largest the smallest |
| `Rings.FourRoommatesExample` | webserver/chores_test.go:40-50 | with the four roommates of the test, every rotation hands each chore to another roommate |
| `CoreDistribution.SumStep` | src/core/chores.go:147-149 | adding one more chore's weight in 32-bit arithmetic extends the wrapped sum of the weights by that chore |
| `CoreDistribution.MinScore` | src/core/chores.go:146-150 | the accumulating loop and the division compute the threshold as specified |
| `CoreDistribution.OrPass` | src/core/chores.go:158-168 | who gets each chore visited so far, and the scores so far, under the one test `below || allChecked`; its meaning is proved by `CoreDistribution.PickClosedForm` and `CoreDistribution.ScoresAreSums` |
| `CoreDistribution.Applied` | src/core/chores.go:164 | the chores with each pick written in as the new assignee, and the unpicked chores as they were; `CoreDistribution.AssignPass` proves the loop ends in this state |
| `CoreDistribution.OrPassPrefix` | src/core/chores.go:158-168 | the decisions of a shorter pass are a prefix of those of a longer one |
| `CoreDistribution.AssignPass` | src/core/chores.go:153-168 | the loop leaves the chores and the score map as the specification of the pass says |
| `CoreDistribution.AppliedPrefix` | src/core/chores.go:164 | the chores with the first picks written in and the rest as they were; `CoreDistribution.AppliedPrefixStep` and `CoreDistribution.AppliedPrefixFull` tie it to `Applied` |
| `CoreDistribution.AppliedPrefixFull` | src/core/chores.go:164 | once every chore is decided, the written prefix is the whole result |
| `CoreDistribution.AppliedPrefixStep` | src/core/chores.go:163-166 | writing decision `i` extends the written prefix by one |
| `CoreDistribution.IterationKeeps` | src/core/chores.go:159-167 | one iteration of the loop takes the chores and scores of `i` decisions to those of `i + 1` |
| `CoreDistribution.Randomize` | src/core/chores/chores.go:21-58 | shuffle, threshold and pass over users: the chores end as the pass over the shuffled chores decides |
| `CoreDistribution.ShuffledAllAssigned` | src/core/chores.go:140-143 | a shuffle of chores that all have an assignment still has only such chores |
| `CoreDistribution.RandomizeMembers` | src/core/chores.go:132-169 | the same over memberships, with `p[i].User` as the person |
| `CoreDistribution.PicksAreSlots` | src/core/chores.go:163-164 | a chore that is given away goes to slot `i % len(p)` |
| `CoreDistribution.ScoresAreSums` | src/core/chores/chores.go:52-55 | `scores[id]` is the sum of the weights of the chores given to the person with that ID |
| `CoreDistribution.FirstPassUntouched` | src/core/chores.go:158-166 | during the first pass, the people not yet visited still have score 0 |
| `CoreDistribution.PickClosedForm` | src/core/dist/distribute.go:40-50 | chore `i < len(p)` goes to `p[i]` exactly when the threshold is positive; every later chore goes to `p[i % len(p)]` |
| `CoreDistribution.ZeroThresholdSkipsFirstPass` | src/core/chores.go:158-168 | with a zero threshold, none of the first `len(p)` chores is given away |
| `CoreDistribution.PositiveThresholdAssignsAll` | src/core/chores.go:158-168 | with a positive threshold, every chore `i` ends with member `i % len(p)` |
| `CoreDistribution.Rotated` | src/core/chores.go:190-192 | every chore's assignee replaced by its entry in the successor map, or nil on a miss; `CoreDistribution.RotateFollowsIdRing` proves the new assignee has the next ID in ascending order |
| `CoreDistribution.Rotate` | src/core/chores.go:172-193 | the people end sorted by ID, and every chore's assignee is replaced by its entry in the successor map of the sorted people |
| `CoreDistribution.RotateFollowsIdRing` | src/core/dist/distribute.go:54-75 | the user a chore moves to is nobody exactly when the old assignee is not among the users, and otherwise the one with the successor ID |
| `ScoreDistribution.SumStep` | src/chores/chores.go:42-44 | adding one more chore's weight in 32-bit arithmetic extends the wrapped sum of the weights by that chore |
| `ScoreDistribution.MinScore` | src/chores/chores.go:41-45 | the accumulating loop and the division compute the threshold as specified |
| `ScoreDistribution.Credit` | src/chores/chores.go:57 | the people with one person's score raised by a weight in wrapping `uint16` arithmetic; `ScoreDistribution.DoubleCredit` uses it to show the double credit |
| `ScoreDistribution.TwoIfPass` | src/chores/chores.go:50-64 | who gets each chore visited so far, and the people's scores, under the two separate `if`s; its meaning is proved by `ScoreDistribution.PickClosedForm` and `ScoreDistribution.DoubleCredit` |
| `ScoreDistribution.AppliedPrefix` | src/chores/chores.go:56 | the chores with the first picks written in as assignee IDs and the rest as they were; `ScoreDistribution.AppliedPrefixStep` extends it by one |
| `ScoreDistribution.AppliedPrefixStep` | src/chores/chores.go:55-62 | writing decision `i` extends the written prefix by one |
| `ScoreDistribution.Visit` | src/chores/chores.go:55-62 | one iteration: the chore given to the slot when the first test passes, then again when the second does, each crediting the slot; `ScoreDistribution.VisitSlot` proves the array update equal to it |
| `ScoreDistribution.VisitSlot` | src/chores/chores.go:55-62 | the two `if`s change the chore and the person as the visit specifies |
| `ScoreDistribution.AssignPass` | src/chores/chores.go:47-64 | the loop leaves the chores and the people as the specification of the pass says |
| `ScoreDistribution.IterationKeeps` | src/chores/chores.go:51-63 | one iteration takes the state after `i` decisions to that after `i + 1` |
| `ScoreDistribution.Randomize` | src/chores/chores.go:27-65 | shuffle, threshold and pass: the chores and the people end as the pass over the shuffled chores decides |
| `ScoreDistribution.PeopleKeepIds` | src/chores/chores.go:55-62 | the pass changes only scores, never a person's ID or name |
| `ScoreDistribution.FirstLapUntouched` | webserver/src/chores/chores.go:45-59 | during the first pass, the people not yet visited keep their starting score |
| `ScoreDistribution.AssigneesPrefix` | src/chores/chores.go:50-64 | the decisions of a shorter pass are a prefix of those of a longer one |
| `ScoreDistribution.PickClosedForm` | webserver/src/chores/chores.go:45-59 | chore `i < len(r)` goes to `r[i]` exactly when that person's starting score is below the threshold; every later chore goes to `r[i % len(r)]` |
| `ScoreDistribution.DoubleCredit` | src/chores/chores.go:55-62 | after the wrap, a person below the threshold is credited twice for the same chore: the score grows by twice the weight, modulo 2^16 |
| `ScoreDistribution.UnpickedKeepsAssignee` | src/chores/chores.go:55-62 | a chore that neither `if` takes keeps its previous assignee |
| `ScoreDistribution.Rotated` | src/chores/chores.go:86-88 | every chore's assignee ID replaced by the successor map's entry, or 0 on a miss; `Rings.RingAt`, `Rings.SuccessorIsNextLarger` and `Rings.MissingAssignee` give that entry |
| `ScoreDistribution.Rotate` | src/chores/chores.go:68-89 | the people end sorted by ID, and every chore's assignee becomes its successor ID, or 0 when it is not among the people |
| `ChoreServices.NameTaken` | src/core/chores.go:45-49 | the scan finds the name exactly when some chore of the group has it |
| `ChoreServices.Create` | src/core/chores.go:41-54 | the group's chores are loaded first; a chore whose name is taken is refused with "Chore already exists", and then `CreateChore` is never called |
| `ChoreServices.Update` | src/core/chores.go:63-78 | a renamed chore must not take the name of a chore of the group; a chore that keeps its name is updated without any check |
| `ChoreServices.Delete` | src/core/chores.go:80-86 | one delete call, with its error replaced by the generic message |
| `ChoreServices.Prior` | src/core/chores.go:92-95 | the assignments the chores held, in chore order, with the unassigned chores skipped; its meaning is proved by `ChoreServices.PriorHolds`, `ChoreServices.PriorOfAssigned` and `ChoreServices.PriorOfUnassigned` |
| `ChoreServices.Reset` | src/core/chores.go:97-100 | every chore gets a fresh assignment of its own, with nobody and dated `now`, and nothing else about it changes |
| `ChoreServices.AssignmentsOf` | src/core/chores.go:105-106 | the chores' assignments in chore order, one per chore; `ChoreServices.CollectAssignments` proves the collecting loop gives it |
| `ChoreServices.Distributed` | src/core/chores.go:103 | the distribution keeps one chore per chore, each with an assignment |
| `ChoreServices.ClearAssignments` | src/core/chores.go:92-101 | the loop collects the old assignments and leaves every chore with a fresh one |
| `ChoreServices.CollectAssignments` | src/core/chores.go:104-111 | the loop collects the new assignments and sets `failed` exactly when one has no member |
| `ChoreServices.Randomize` | src/core/chores.go:88-127 | if a chore is left without a member, "Failed to distribute chores" and no call at all; otherwise the old assignments are deleted, and the new ones are inserted only if the delete succeeded |
| `ChoreServices.PriorHolds` | src/core/chores.go:92-95 | `oldCa` holds exactly the assignments some chore had |
| `ChoreServices.PriorOfAssigned` | src/core/chores.go:92-95 | when every chore had an assignment, `oldCa` lists them all, in chore order |
| `ChoreServices.PriorOfUnassigned` | src/core/chores.go:92-95 | a group whose chores were never assigned deletes nothing |
| `ChoreServices.ShuffledFresh` | src/core/chores.go:97-103 | after the shuffle, the chores still hold only fresh assignments with nobody |
| `ChoreServices.DistributionFailsIff` | src/core/chores.go:103-114 | with members of distinct IDs, `Randomize` fails exactly when there is a chore and the threshold is zero |
| `FormValidation.SpaceEnd` | src/web/validate.go:12 | the first position at or after `lo` that does not hold white space; everything from `lo` up to it is white space |
| `FormValidation.ContentEnd` | src/web/validate.go:12 | the cut just after the last character below `hi` that is not white space; everything from it up to `hi` is white space |
| `FormValidation.TrimSpace` | src/web/validate.go:12 | `strings.TrimSpace`: a piece of the string with white space only around it, and no white space at either end of it |
| `FormValidation.TrimSpaceEmpty` | src/web/validate.go:12-14 | the trimmed string is empty exactly when the string is blank |
| `FormValidation.AlnumRun` | src/web/validate.go:10 | the length of the run of letters and digits the string starts with |
| `FormValidation.PatternHasShape` | src/web/validate.go:10 | every string the name pattern matches has the shape of a name |
| `FormValidation.ShapeHasPattern` | src/web/validate.go:10 | every string with the shape of a name matches the name pattern |
| `FormValidation.NamePatternIff` | src/web/validate.go:10 | the name pattern matches exactly the non-empty strings of ASCII letters, digits and hyphens that start and end with a letter or digit and have no two hyphens in a row |
| `FormValidation.BlankIsNoName` | src/web/auth/validate.go:15-38 | no blank string matches the name pattern |
| `FormValidation.EmailPatternIff` | src/web/validate.go:45 | the email pattern matches exactly when the string holds an `@` and later a `.`, with a character before, between and after them and no newline among those |
| `FormValidation.ValidateGroupName` | src/web/validate.go:9-19 | accepts exactly the strings of the name pattern; a blank name gets "Group name cannot be empty", any other refused name the pattern message |
| `FormValidation.ValidatePassword` | src/web/validate.go:21-29 | accepts exactly two equal passwords that are not blank; a mismatch is reported even when both are blank |
| `FormValidation.ValidateUsername` | src/web/validate.go:31-40 | accepts exactly the strings a group name may be, with username messages |
| `FormValidation.ValidateEmail` | src/web/validate.go:42-51 | accepts exactly the strings that hold `X@Y.Z`; a blank email gets "Email cannot be empty", any other refused one "Invalid email address" |
| `AuthForms.RegisterMessage.constructor` | src/web/messages/RegisterMessage.go:4-8 | a new message has its username, e-mail and password fields empty, Go's zero value |
| `AuthForms.ValidateInput` | src/web/auth/validate.go:9-46 | valid exactly when the username fits the name pattern, the passwords agree and are not blank, and the email fits the email pattern; every failing field gets its last message, and a field that passes is not written |
| `AuthForms.FieldChecks` | src/web/auth/validate.go:15-43 | a blank username or email also fails its pattern, so the pattern message is the one that stays |
| `GroupForms.CreateGroupMessage.constructor` | src/web/groups/validate.go:9 | a new message has its name field empty, Go's zero value |
| `GroupForms.ValidateName` | src/web/groups/validate.go:9-22 | valid exactly when the name fits the name pattern; a blank name gets "Group name cannot be empty!", any other refused name the pattern message, and a valid name leaves the message alone |
| `DayCounter.FindTimeType` | main.cpp:105-111 | "d" or "D" is days, "w" or "W" is weeks, anything else is no type; month and year are never chosen |
| `DayCounter.ConvertTime` | main.cpp:113-126 | days are the amount; weeks are seven times the amount modulo 2^32; every other type gives 0 |
| `DayCounter.Expired` | main.cpp:88 | `endDay - currentDay < 1` in unsigned arithmetic holds exactly on the due day; a day already past wraps and is not reported |
| `DayCounter.Remaining` | main.cpp:81 | the days shown as remaining: the true difference while the item is not past due, 2^32 minus the overdue days after |
| `DayCounter.ExpiredNames` | main.cpp:85-92 | the names of the items due today, in item order; its meaning is proved by `DayCounter.ExpiredNamesIff` |
| `DayCounter.ExpiredNamesIff` | main.cpp:85-92 | a name is reported exactly when some item of that name is due today |
| `DayCounter.CheckItemsExpired` | main.cpp:85-92 | the loop reports, in item order, exactly the items due today |
| `DayCounter.Tracker.constructor` | main.cpp:28-32 | no items, day 0 |
| `DayCounter.Tracker.AddItem` | main.cpp:51-64 | one item is appended; it starts today and ends the converted number of days later, modulo 2^32; the day does not change |
| `DayCounter.Tracker.AdvanceDay` | main.cpp:65-68 | the day goes up by exactly one, modulo 2^32, and the items do not change |

## Left out

- The permission word is a sequence of 64 booleans, the two's-complement bits of a 64-bit Go `int`, rather than a `bv64`. `Can`, `Set` and `SetAll` with a bit number outside 0..63 are not modelled; the source only uses bits 0 to 3.
- `BuildSuperRole`, `FindMember`, `FindRole` and `FindChore` are called by the source but not defined in its files. The model takes the three lookups to return the first match, or nil (`CoreTypes.FindMember`, `CoreTypes.FindRole`, `CoreTypes.FindChore`). `src/core/roles.go:52` passes a username to `FindMember`, so that call is modelled by username (`CoreTypes.FindMemberNamed`). The model takes `BuildSuperRole` to OR the roles' words and their `GetsChores` flags (`Permissions.SuperRoleOf`, characterised by `Permissions.SuperRoleCan`).
- `messages.RegisterMessage` is the struct of src/web/messages/RegisterMessage.go:4-8, repeated at src/web/messages/messages.go:13-17, and is modelled as `AuthForms.RegisterMessage`. `messages.CreateGroup` is not defined in the source files. It is taken to be a struct with the one string field `Name` that the group-name validator writes (`GroupForms.CreateGroupMessage`).
- The repository answers every call as fixed when it is built. It does not remember what earlier calls stored. The ID a create call writes back into its record comes from a map of calls to IDs. A read fills its record from the repository's fixed maps.
- The SQL and Mongo adapters, the HTTP layer, sessions and logging are not modelled. `log.Printf` calls leave no trace in the model.
- `time.Now()` is a number `now`, and `rand.Seed` and `rand.Intn` are a sequence of draws `js`. The draws of `rand.Intn(i)` are required to satisfy `0 <= js[i] < i`.
- `sort.Slice` is a library sort. Its result is a parameter `sorted`, required to be a permutation of the people that is sorted by ID; the model does not choose among orders of equal IDs.
- `ChoreServices.Reset` dates every fresh assignment with the same `now`. The source calls `time.Now()` once per chore inside the loop (src/core/chores.go:99), so its assignments may carry later and later times; the model does not capture that difference.
- `CoreDistribution.Rotate` treats each chore's assignee as a value, read as it was before the sort. In Go the assignee is a `*User`, and when it points into the slice `u` (as the pointers stored by src/core/chores/chores.go:53 can), `sort.Slice` moves other users under it and the lookup reads whoever now sits in that slot. The model does not capture that aliasing. For example, with `u = [B(2), A(1)]` and chores pointing at `&u[0]` and `&u[1]`, Go rotates the first chore to B and the second to A, while the model gives the first to A and the second to B.
- `choreService.Randomize` takes each new assignment's `Chore` pointer to the chore's slot, and the shuffle then moves other chores into that slot. The model records the chore it was made for, by ID. It does not reproduce what the pointer sees after the shuffle.
- The pass-through service methods `GetGroup`, `GetMemberships` of `groupService`, `GetRole`, `GetChore`, `GetUserByName`, `GetUserByID` and `GetChores` of `userService` only forward to one repository call. They are not modelled; `GroupServices.GetChores` is, because `choreService.Update` calls it.
- A membership's `User` pointer and a chore's assignee in `Rotate` are taken to be non-nil. Where the source would dereference a nil pointer, or divide by `uint32(len(p))` when it is zero, the model has a precondition instead. `CoreDistribution.Randomize` and `CoreDistribution.RandomizeMembers` require `AllAssigned(c[..])`, an assignment on every chore, although Go dereferences `c[i].Assignment` only for the chores the pass picks. The one caller in the source, `choreService.Randomize`, gives every chore a fresh assignment first (src/core/chores.go:92-100), so no input it can pass is excluded.
- `unsigned int` in `main.cpp` is taken to be 32 bits wide.
- The console input and output of `main.cpp`, `printMenu` and the option handling of its main loop are not modelled; the day counter's state is a class whose methods are the two menu options.
- The regular expressions are predicates, not a regular expression engine. Strings are sequences of code points; UTF-8 decoding of invalid bytes is not modelled.
- `Threshold.MinScoreIsFloorAverage` holds only when the weights are non-negative and sum to less than 2^32. Otherwise the threshold is the floor average of the sum modulo 2^32 (`Threshold.WeightSumIsModularSum`).
- `ChoreServices.Distributed` does not say which member each chore ends with; that is stated about the pass it is built from (`CoreDistribution.PickClosedForm`, `CoreDistribution.ScoresAreSums`).

## Findings

| source | as written | input that shows it | evidently intended | confidence | as-written member | corrected member |
|---|---|---|---|---|---|---|
| src/core/chores.go:140-143 | the swap index is `rand.Intn(i)`, which draws from `0 <= j < i`; this is Sattolo's algorithm, which only produces cyclic permutations | any two distinct chores: they always come out swapped, and in general the last chore never stays last | the documented Fisher–Yates range `0 <= j <= i`, under which every order, the original one included, can come out | not executed; high | `Shuffling.IntnNeverIdentity` | `Shuffling.FisherYatesReachesAll` |
| src/chores/chores.go:55-62 | two separate `if`s: after the wrap, a person below the threshold is credited twice for the same chore | 2 people with score 0, 3 chores of 50 minutes, so the threshold is 15: the chore at position 2 goes to the first person, whose score goes from 10 to 30 instead of 20 | one test `below || allChecked`, as in the other copies (src/core/chores.go:163), crediting each chore once | not executed; medium | `ScoreDistribution.DoubleCredit` | `CoreDistribution.ScoresAreSums` |

In both copies the shuffle is modelled as written. The draws are required to come from `rand.Intn`, and the specification `Shuffling.Shuffled` is defined over the wider documented range, which holds them.

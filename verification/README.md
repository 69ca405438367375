# dcnetlab, verified

A Dafny model of the parts of dcnetlab whose promises span more than one function, with proofs of those promises.
`dafny verify dfyconfig.toml` checks everything.

The lab controller turns a short topology spec (externals, edges, super-spines, pods with spines, racks and servers)
into a Clos fabric whose every device and link carries numbers taken from ranges and pools. A **plan** rebuilds the
whole fabric on top of the **deployed generation**, pinning whatever is still wanted; an **apply** compiles the
difference into an increment that an agent carries out on running containers and veth pairs. The README of the
repository promises that existing devices are never restarted and never renumbered. Around that core the model
covers the process supervisor inside the servers, the BGP decoder of the capture viewer, the operation executor,
the metrics history, fault injection, and the live capture window and stream.

How the model is laid out:

| area | modules |
|---|---|
| numbered resources | `Ranges`, `Allocators` |
| names, specs, the order of a build | `Decimal`, `Fabric`, `Script`, `ScriptFacts` |
| what a rebuild computes, and the loops that compute it | `Build`, `Builder`, `BuilderFacts` |
| what a rebuild promises | `BuildInvariant`, `Certification`, `RestoreFacts`, `RackNumbers`, `Rebuilds`, `RebuildTheorems`, `Growth`, `BuildOrder`, `Ports`, `Numbers`, `WellFormedness`, `Allocations` |
| previewing and applying a difference | `PlanDiff`, `PlanTheorems`, `Identity`, `Deploy`, `DeployTheorems` |
| one lab's whole life | `LabSpec`, `Generations`, `GenerationTheorems`, `Provenance`, `ExampleRuns`, `PlanUsecase` |
| process supervision | `Supervisor`, `SupervisorTheorems`, `SupervisorPolicy` |
| BGP messages | `Bgp`, `BgpRanges`, `BgpInverse`, `BgpTruth` |
| the smaller stateful cores | `Operation`, `ProgressRace`, `History`, `Fault`, `Capture`, `Broadcast` |

Where the code loops over fields it changes, the model is a class or a method with the same loops, proved against a
recursive function or a predicate; the theorems are then about those. The supervisor, whose goroutines share one
mutex, is an interleaving of its lock regions; the agent's concurrent phases pick their next unfinished item
arbitrarily and may fail at any step.

The central notion is a **certified** topology (`Certification.Certified`): its devices and links are exactly those of
a shape, every link the tier adjacency asks for is there, and every number and interface comes from one assignment in
which nothing is held twice. Every build and rebuild leaves a certified topology, whatever order the store later lists
it in, and everything else about the planner follows from that.

Results that are not what the repository's own comments say:

- Rolling back is not always exact. The increment is compiled from names alone, so a link removed and later re-added on
  another interface stays where it is when an old generation is restored. `DeployTheorems.ExactIffSamePorts` gives the
  exact condition; `ExampleRuns.RollbackMisplacesALink` is a run of one small lab, from its creation to the rollback's
  apply, that ends with a deployed generation whose pairs are not the ones running.
- An apply deploys the stored desired state, not the previewed one: an older pending plan on the same base is accepted
  and deploys the newer plan's topology. It does what it previewed exactly when the newest plan lists the same
  operations (`GenerationTheorems.DeploysItsPreviewIff`; a run where it does not is
  `ExampleRuns.OlderPlanDeploysNewerState`).
- A snapshot stores the spec of the moment of the apply, not of the plan. Spec and topology belong together, and
  planning again after a rollback is a no-op, exactly if the spec had not come to ask for something else in between
  (`Provenance.SnapshotIsFaithfulIff`, `Provenance.RollbackConvergesIff`).
- Creating a lab with a custom spec does not settle pod names, so `["pod-2", ""]` gives two pods the same name
  (`LabSpec.CustomLabCanCollide`; the exact condition is `LabSpec.UnsettledNamesCollide`).
- What an abandoned increment left running is not cleaned up by a different one (`DeployTheorems.ContainersExactIff`;
  a run cut short after its first device is `DeployTheorems.AbandonedContainerStays`).
- An identity is carried over from the stored desired rows, so a plan that drops a device loses its identity even if
  that plan is never applied (`Identity.IdentityThroughTwoPlans`).
- A Stop in the supervisor looks its name up twice and can cancel a definition installed in between
  (`SupervisorTheorems.StopHitsNewerDefinition`). It finds the definition it marked exactly when no effective Install or
  Remove of the name came between the two (`SupervisorTheorems.StopFindsWhatItMarkedIff`). A Start between the two halves
  of a Remove leaves a process behind (`SupervisorTheorems.RemoveRacesStart`).
- A report that outlives its step can take an operation's bar back, and nothing else can
  (`ProgressRace.FallsIffOutlived`).
- A subscriber that leaves while a flush has copied but not yet served it makes the controller send on a closed channel;
  these are exactly the runs that panic (`Broadcast.PanicsIff`).
- A capture subscription's snapshot and first batch overlap in the rows that were pending
  (`Capture.SnapshotThenBatches`).
- A two-octet AS_PATH whose bytes also form a four-octet one is shown as the latter (`BgpInverse.TwoOctetPathMisread`,
  with the exact condition in `BgpInverse.TwoOctetPathBackIff`).
- Restoring a number that was released makes the allocator hand it out again (`Ranges.RestoredReleaseIsAllocatedTwice`).

## Model

| member | source | states |
|---|---|---|
| `Ranges.AllocateKeepsPartition` | controller/internal/allocator/asn/asn.go:48-73 | the granted number was not held, none is left exactly on failure, and held, returned, skipped and not-yet-reached numbers still partition the range exactly when the 32-bit cursor does not wrap |
| `Ranges.ReleaseKeepsPartition` | controller/internal/allocator/asn/asn.go:77-92 | releasing a held number moves it to the returned ones and keeps the partition |
| `Ranges.ReturnedLastGoesFirst` | controller/internal/allocator/asn/asn.go:48-92 | a number released and then allocated again comes back at once, to its new holder, with the rest of the range as it was |
| `Ranges.FreshIsLowest` | controller/internal/allocator/asn/asn.go:60-73 | with nothing returned the number granted is the lowest one never reached |
| `Ranges.RestoreKeepsPartition` | controller/internal/allocator/asn/asn.go:97-120 | a restore keeps the partition exactly when the number had not been released and the cursor does not wrap |
| `Ranges.RestoredReleaseIsAllocatedTwice` | controller/internal/allocator/asn/asn.go:97-120 | restoring a released number makes a later allocation grant it while it is held |
| `Ranges.CallsKeepPartition` | controller/internal/allocator/asn/asn.go:25-120 | the partition holds after every sequence of calls in which no restore names a released number, for a range that ends below 2^32 - 1 |
| `Allocators.AddressPool.Allocate` | controller/internal/allocator/ipam/ipam.go:54-76 | the pool's in-place state follows the range specification, failing exactly when it is used up |
| `Allocators.AsnAllocator.Allocate` | controller/internal/allocator/asn/asn.go:48-73 | the same per role, the 32-bit cursor included; other roles are untouched |
| `Allocators.AsnAllocator.Restore` | controller/internal/allocator/asn/asn.go:97-120 | marks an ASN held or fails, touching only its role |
| `Allocators.DeclareIff` | controller/internal/allocator/asn/asn.go:25-45 | declaring the ranges fails exactly for an inverted range or a role given twice, and otherwise leaves each role its whole range free |
| `ScriptFacts.ItemsAre` | controller/internal/topology/builder.go:253-336 | a build visits a device or link if and only if the shape has it: the links are exactly the tier adjacency induced on the devices |
| `ScriptFacts.ItemsDiffer` | controller/internal/topology/builder.go:253-336 | no device, rack or link is visited twice |
| `Script.EndsBuiltFirst` | controller/internal/topology/builder.go:253-336 | both ends of a link are created before it |
| `BuildInvariant.TakeKeepsBooks` | controller/internal/topology/builder.go:210-228 | a pinned or fresh grant keeps every pool's books the exact inverse of the assignment |
| `BuildInvariant.PortsStay` | controller/internal/topology/builder.go:568-592 | a link gets its deployed interfaces back or ones past every interface in use on either end |
| `BuildInvariant.RunKeepsInv` | controller/internal/topology/builder.go:253-400 | after every item: numbers exclusive, interfaces exclusive, everything built rendered from the current assignment |
| `Certification.BuiltIsCertified` | controller/internal/topology/builder.go:253-336 | what a finished build leaves is certified for its shape |
| `RestoreFacts.ReplayNodes` | controller/internal/topology/builder.go:99-138 | replaying certified devices succeeds and recovers every number, rack and slot they show |
| `RestoreFacts.ReplayLinks` | controller/internal/topology/builder.go:140-160 | replaying certified links succeeds and recovers every /31 and interface |
| `Rebuilds.ReplayCertified` | controller/internal/topology/builder.go:99-162 | restoring a certified base never fails and recovers exactly its assignment |
| `RackNumbers.NumberingIsDistinct` | controller/internal/topology/builder.go:232-240 | slots keep deployed rack numbers, new ones lie above every number of the deployed topology, and no number serves two racks of the lab |
| `RebuildTheorems.RebuildIsCertified` | controller/internal/topology/builder.go:99-400 | a rebuild on any certified base is certified again, with an assignment that agrees with the deployed one |
| `RebuildTheorems.RebuildKeepsSurvivors` | controller/internal/topology/builder.go:185-240 | every device and link present before and after is identical, for any new spec |
| `RebuildTheorems.SurvivorsUnchanged` | controller/internal/topology/builder.go:185-240 | two certified topologies with agreeing assignments have the same record on every common name |
| `RebuildTheorems.LinkGoesWithAnEnd` | controller/internal/topology/builder.go:283-336 | a link of one certified topology is missing from another only if one of its ends is |
| `RebuildTheorems.RebuildReproduces` | controller/internal/topology/builder.go:99-240 | rebuilding the deployed spec on what it deployed succeeds, gives the same records and no new allocation |
| `Growth.RebuildFits` | controller/internal/topology/builder.go:99-228 | a rebuild succeeds, on numbers from the front of every pool, while what is deployed and twice its items stay clear of the smallest pool's end |
| `Numbers.NewNumbersInOrder` | controller/internal/topology/builder.go:210-228 | in a rebuild's records each new number is the first of its pool behind everything deployed, or as far past it as new owners of the pool come before it |
| `Numbers.DevicesInOrder` | controller/internal/topology/builder.go:253-400 | externals, edges and super-spines are created first, in this order; a pod starts with its spines and a rack with its leaves |
| `Growth.PoolsHold` | controller/internal/topology/defaults.go:26-53 | how many numbers each pool and range can give, counted from its bounds |
| `Growth.AddedLandsPast` | controller/internal/topology/builder.go:568-592 | a link the deployed topology lacks lands past every interface in use on either end |
| `Growth.LaterLandsFurther` | controller/internal/topology/builder.go:568-592 | of two new links at one device the one built later lands further out |
| `Ports.NewLinksLandInOrder` | controller/internal/topology/builder.go:568-592 | in a rebuild each new link lands, at either end, on the interface as far past the highest one the device's deployed links use as new links have been wired there, this one included |
| `Ports.NewDeviceInterfaces` | controller/internal/topology/builder.go:568-592 | on a device none of whose links is deployed the how-manieth link is on the interface of that number |
| `BuildOrder.PodDevicePlaces` | controller/internal/topology/builder.go:298-400 | the order of links at the devices of a pod: on a spine the super-spines and then each rack's leaf a and leaf b, on a leaf the spines, the other leaf and the servers, on a server leaf a and leaf b |
| `BuildOrder.CoreDevicePlaces` | controller/internal/topology/builder.go:253-336 | the same above the pods: on an edge the externals and then the super-spines, on a super-spine the edges and then the spines, pod by pod |
| `WellFormedness.CertifiedIsWellFormed` | controller/internal/topology/builder.go:342-592 | unique names, interfaces and addresses, ASNs unique per role, racks global, complete and each in one /24 of its own, links addressed in pairs, devices and links as the next three rows say |
| `WellFormedness.CertifiedMesh` | controller/internal/topology/builder.go:253-400 | two devices are linked if and only if they face each other: neighbouring tiers, below the spines within a pod, below the leaves within a rack, and the two leaves of a rack |
| `WellFormedness.CertifiedLinksPlain` | controller/internal/topology/builder.go:513-566 | a link is server access exactly when its lower end is a server, an MLAG peer link exactly when its ends are the two leaves of one rack, and fabric otherwise; VLAN 1000 on the former two, MTU 9100 on all |
| `WellFormedness.CertifiedNodesPlain` | controller/internal/topology/builder.go:342-511 | in numbers: the ASN and loopback ranges of each tier, the addresses, gateway, VLAN, VRRP group and priority of each leaf of a pair, and the addresses of servers |
| `WellFormedness.CertifiedAddresses` | controller/internal/topology/builder.go:342-413 | no IPv4 address is used in two places, across loopbacks, /31 ends, VLAN interfaces, servers and gateways |
| `WellFormedness.ServerInsideSubnet` | controller/internal/topology/builder.go:404-413 | a server's address is inside its rack's /24 if and only if it is at most the 245th |
| `WellFormedness.CertifiedPeers` | controller/internal/topology/builder.go:342-508 | both leaves of every rack exist and are each other's MLAG peer in one VRRP group, and every server peers with their two physical addresses |
| `WellFormedness.CertifiedLinkAddresses` | controller/internal/topology/builder.go:513-566 | fabric links carry the two addresses of one /31, other links none |
| `Fabric.RackAsnInjective` | controller/internal/topology/builder.go:342-372 | leaf ASNs of two racks coincide exactly when their numbers agree modulo 2^32 |
| `Builder.Builder.RestoreTopology` | controller/internal/topology/builder.go:99-162 | the field-by-field replay computes exactly the recovered state, or fails exactly when that does |
| `Builder.Builder.AddRack` | controller/internal/topology/builder.go:342-400 | one rack in place, with its number, subnet, leaves, servers and links, is one step of the specification |
| `Builder.Builder.AddLink` | controller/internal/topology/builder.go:513-592 | a fabric link takes its /31 and interfaces as specified and fails with the pool |
| `Builder.Builder.Build` | controller/internal/topology/builder.go:253-336 | the nested loops build exactly the items of the shape, in order |
| `Builder.RebuildTopology` | controller/internal/biz/plan.go:99-107 | a new builder, restored and run, computes the specified rebuild or its failure |
| `Allocations.DeriveAllocations` | controller/internal/topology/allocations.go:13-51 | the loop computes the derived records |
| `Allocations.DeriveMatchesBuild` | controller/internal/topology/allocations.go:13-51 | deriving from a build's result gives the same multiset of records the build wrote |
| `Allocations.DeriveMatchesRestore` | controller/internal/topology/builder.go:165-206 | the owners derived from a base are exactly those the builder treats as already held |
| `Allocations.RebuildKeysUniqueIff` | controller/internal/data/data.go:97-103 | no two records of a regular plan share pool and value, the allocation table's primary key, if and only if the lab's rack numbers differ as 32-bit words |
| `Allocations.RollbackKeysUniqueIff` | controller/internal/biz/plan.go:217-266 | the same for the records a rollback plan stores, which are derived from its target |
| `PlanDiff.PlanChanges` | controller/internal/biz/plandiff.go:58-175 | the diff loops compute the preview: differences in order, and per survivor the number of its created and deleted links |
| `PlanDiff.BuildIncrement` | controller/internal/biz/increment.go:23-115 | the compiled increment, and failure exactly for a stranded link or an unreadable new config |
| `PlanDiff.RestoreScope` | controller/internal/biz/increment.go:121-139 | every device from scratch, only the added ones on a base |
| `PlanDiff.RemovedResources` | controller/internal/biz/plan.go:586-617 | the prune sets are the base's devices and links that are gone |
| `PlanTheorems.PreviewIs` | controller/internal/biz/plandiff.go:58-175 | each operation is previewed if and only if its device or link differs that way |
| `PlanTheorems.PreviewInOrder` | controller/internal/biz/plandiff.go:58-175 | created devices, created links, deleted links, deleted devices and updates come in this order |
| `PlanTheorems.PreviewHasNoRepeats` | controller/internal/biz/plandiff.go:58-175 | between topologies that list nothing twice no operation is listed twice |
| `PlanTheorems.OneDifference` | controller/internal/biz/plandiff.go:58-175 | preview, increment, restore scope and prune sets are the same set differences |
| `PlanTheorems.IncidenceCounts` | controller/internal/biz/plandiff.go:84-150 | the touched counter of a device is the number of changed links at it |
| `PlanTheorems.RegularUpdates` | controller/internal/biz/plandiff.go:155-172 | in a regular plan a survivor is updated if and only if its link set changed, and never because its spec did |
| `PlanTheorems.NewServersAreAttached` | controller/internal/biz/increment.go:53-74 | a surviving device is told to attach exactly the new links from it to servers, two commands each on its own interface, and a new device nothing; a new server's links are new |
| `PlanTheorems.ReloadsIff` | controller/internal/biz/increment.go:96-112 | exactly the survivors whose rendered config changed, or whose old one cannot be read, are reloaded |
| `PlanTheorems.FixpointPreviewsNothing` | controller/internal/biz/plan.go:99-128 | re-planning what is deployed previews no node or link operation |
| `PlanTheorems.CompilesIffReadable` | controller/internal/biz/increment.go:76-115 | between certified topologies only an unreadable rendered config can make compiling fail |
| `Identity.CarryOverIdentity` | controller/internal/biz/plandiff.go:19-48 | in place, every device and link row whose name is stored takes over that row's whole metadata and status and any other keeps its own, specs stay as built, and each link end follows its device |
| `Identity.CarriedRow` | controller/internal/biz/plandiff.go:12-36 | the built spec stays, and the identity changes exactly when the name is stored |
| `Identity.CarriedIdsDiffer` | controller/internal/biz/plandiff.go:19-36 | identities stay distinct |
| `Identity.CarriedLink` | controller/internal/biz/plandiff.go:38-48 | a link row keeps what was built and takes over a stored row's identity and status exactly when its name is stored |
| `Identity.CarriedLinkIdsDiffer` | controller/internal/biz/plandiff.go:38-48 | link identities stay distinct |
| `Identity.EndsFollow` | controller/internal/biz/plandiff.go:38-48 | the ends of a link name the identities their devices ended up with |
| `Identity.IdentityThroughTwoPlans` | controller/internal/biz/plan.go:109-119 | over two plans an identity survives if and only if the first one still had the name |
| `Identity.LinkIdentityThroughTwoPlans` | controller/internal/biz/plan.go:109-119 | the same for the identity of a link |
| `Identity.BroughtBackStartsOver` | controller/internal/biz/plan.go:288-317 | what a rollback brings back starts over under its snapshot's identity |
| `Identity.ResetReAddedNodes` | controller/internal/biz/plan.go:291-306 | in place, devices that are not stored start over as pending |
| `Identity.ResetReAddedLinks` | controller/internal/biz/plan.go:308-314 | the same for links |
| `Deploy.Runtime.RemoveContainer` | agent/internal/clab/increment.go:261-278 | a container goes with every pair it holds an end of; a missing one is success |
| `Deploy.Runtime.CreatePair` | agent/internal/clab/increment.go:205-220 | a pair is created if and only if both containers run and both names are free, and otherwise nothing changes |
| `Deploy.Runtime.CreateNodes` | agent/internal/clab/increment.go:87-91 | phase one in any order, cut short anywhere: leftovers removed, then created |
| `Deploy.Runtime.CreateLinks` | agent/internal/clab/increment.go:93-97 | phase two in any order, cut short anywhere: names cleared, then wired, finished pairs never hit |
| `Deploy.Runtime.DeployIncrement` | agent/internal/clab/increment.go:56-122 | a complete run leaves the same containers and pairs in every order; a failed one only touches what the increment names |
| `DeployTheorems.AddedPortsDisjoint` | controller/internal/biz/increment.go:53-74 | the links of an increment towards a well-formed topology never contend for an interface |
| `DeployTheorems.NothingIsStranded` | controller/internal/biz/increment.go:76-88 | the "both endpoints survive" error is unreachable between certified topologies |
| `DeployTheorems.CompleteRunIsExact` | agent/internal/clab/increment.go:56-122 | from the base or from anything failed runs left, a complete run leaves exactly the new containers and pairs |
| `DeployTheorems.CutShortIsUnderway` | agent/internal/clab/increment.go:127-150 | a run cut short anywhere stops no survivor, cuts no surviving pair, and leaves a state to retry from |
| `DeployTheorems.ApplyWithRetries` | README.md:29 | any number of failed runs and then a complete one: survivors untouched throughout, exactly the new topology at the end |
| `DeployTheorems.RegularPlanKeepsPorts` | controller/internal/topology/builder.go:568-592 | common links of a regular plan sit on the same interfaces |
| `DeployTheorems.ExactIffSamePorts` | controller/internal/biz/increment.go:46-94 | between any two certified topologies a complete run is exact if and only if common links sit on the same interfaces |
| `DeployTheorems.ContainersExactIff` | agent/internal/clab/increment.go:87-122 | the containers end up exact if and only if survivors run and nothing outside the two topologies does |
| `DeployTheorems.AbandonedContainerStays` | agent/internal/clab/increment.go:87-91 | for any lab, a run cut short after creating one device leaves a container that an increment towards another topology does not remove |
| `LabSpec.ValidateTopologySpec` | controller/internal/biz/lab.go:129-149 | accepts exactly the specs with every tier present and at most 200 servers a rack |
| `LabSpec.FillPodNames` | controller/internal/biz/lab.go:157-200 | in place: refused exactly for a name given twice, otherwise the settled names |
| `LabSpec.SettledIsUnique` | controller/internal/biz/lab.go:157-200 | explicit names kept, unnamed slots reclaim theirs or take the first free default: this determines the result |
| `LabSpec.SettledIsDistinct` | controller/internal/biz/lab.go:151-156 | settled names are present and distinct, which is what the builder needs |
| `LabSpec.UnnamedAreNumbered` | controller/internal/biz/lab.go:157-200 | with no names given and none to take back the pods are numbered from one |
| `LabSpec.EditInPlaceKeepsNames` | controller/internal/biz/lab.go:175-187 | editing counts with no names given keeps every pod its name |
| `LabSpec.UnsettledNamesCollide` | controller/internal/biz/lab.go:45-87 | without settling, pods get distinct names if and only if no explicit name repeats or is an unnamed slot's default |
| `LabSpec.CustomLabCanCollide` | controller/internal/biz/lab.go:45-87 | a custom spec the create call accepts whose pods get the same name |
| `Generations.StepKeeps` | controller/internal/biz/plan.go:85-497 | every spec edit, plan, rollback plan and apply outcome keeps the invariant of a lab |
| `Generations.EveryRunIsSafe` | controller/internal/biz/plan.go:85-497 | over every run, desired state and every retained generation are well-formed and the deployed one is retained |
| `Generations.SaveKeeps` | controller/internal/data/plan.go:48-68 | saving the next generation and keeping the ten newest never drops the deployed one |
| `GenerationTheorems.KeptIffAmongNewest` | controller/internal/data/plan.go:48-68 | a generation is kept exactly when fewer than ten newer ones are |
| `GenerationTheorems.PlansTouchNothingDeployed` | controller/internal/biz/plan.go:85-286 | plans and rollback plans change neither the deployed generation nor any retained one; a rollback plan takes the snapshot's spec and topology, a regular one keeps the spec |
| `GenerationTheorems.ApplyMovesOneGeneration` | controller/internal/biz/plan.go:321-497 | only a successful apply moves the deployed generation, by one, and marks its plan; a failed one leaves the generation and shows as failed |
| `Generations.ListedIsCertified` | controller/internal/biz/plan.go:337-345 | the order the store lists rows in does not matter |
| `GenerationTheorems.DeploysItsPreviewIff` | controller/internal/biz/plan.go:152-157 | in every reachable state an apply deploys the newest plan's topology, so it does what its own plan previewed if and only if the newest plan lists the same operations |
| `GenerationTheorems.NewestPreviewsDesired` | controller/internal/biz/plan.go:321-345 | whenever any plan can be applied the newest can, and it previews the desired topology |
| `ExampleRuns.OlderPlanDeploysNewerState` | controller/internal/biz/plan.go:321-345 | a reachable lab with two pending plans that differ, where applying the older one deploys the newer one's topology |
| `ExampleRuns.RollbackMisplacesALink` | controller/internal/biz/plan.go:188-286 | a run of plans, applies and a rollback from a lab's creation on, whose last increment is empty and leaves pairs that differ from the generation it deploys |
| `GenerationTheorems.ApplyKeepsSurvivors` | README.md:29 | a regular plan and its apply renumber nothing that survives |
| `GenerationTheorems.PlanIsFaithful` | controller/internal/biz/plan.go:85-171 | a regular plan makes the desired topology have the shape its spec asks for |
| `Provenance.FaithfulIff` | controller/internal/topology/builder.go:253-336 | a topology planned for one valid spec has the shape of another if and only if both ask for the same tiers and, in any order, the same pods |
| `Provenance.PlansNothingIff` | controller/internal/biz/plan.go:85-171 | in every reachable state a regular plan has no operation and allocates nothing if and only if what is deployed has the shape of the spec |
| `Provenance.AppliedPlanConvergesIff` | controller/internal/biz/plan.go:468-497 | after a successful apply the next plan is such a no-op if and only if what was applied was planned for the current spec |
| `Provenance.EveryRunKnowsOrigins` | controller/internal/biz/plan.go:85-497 | over every run each desired and retained topology has the shape of the spec it was planned for |
| `Provenance.SnapshotIsFaithfulIff` | controller/internal/biz/plan.go:404-407 | a retained snapshot's spec and topology belong together if and only if the stored spec asks for what the topology was planned for |
| `Provenance.RollbackConvergesIff` | controller/internal/biz/plan.go:273-283 | after a rollback and its apply the next plan is a no-op exactly under that condition |
| `GenerationTheorems.OneNotionOfNew` | controller/internal/biz/plan.go:126-133 | regular and rollback plans call the same allocations new |
| `GenerationTheorems.PlanListsNewRecords` | controller/internal/biz/plan.go:85-286 | in every reachable state either kind of plan previews the difference to the topology it made desired and lists exactly that topology's records whose owner has none in the deployed one |
| `PlanUsecase.Usecase.UpdateTopology` | controller/internal/biz/lab.go:95-124 | refused while applying, for an invalid shape or a repeated name; otherwise only the spec changes, ready for the builder |
| `PlanUsecase.Usecase.CreatePlan` | controller/internal/biz/plan.go:85-171 | the whole new state of the lab, or its failure with nothing changed |
| `PlanUsecase.Usecase.CreateRollbackPlan` | controller/internal/biz/plan.go:188-286 | the same for a rollback plan, with its three refusals |
| `PlanUsecase.Usecase.ApplyPlan` | controller/internal/biz/plan.go:321-497 | the checks, and the state each outcome of the run leaves |
| `Supervisor.EveryInterleavingIsSafe` | nodeapps/internal/nodeagent/manager.go:190-446 | the invariant holds after every interleaving of calls, supervision steps and exits |
| `Supervisor.StepKeeps` | nodeapps/internal/nodeagent/manager.go:585-688 | each lock region and each unlocked step keeps it |
| `SupervisorTheorems.OneSupervisionOneProcess` | nodeapps/internal/nodeagent/manager.go:412-446 | a definition has at most one acting supervision and at most one live process |
| `SupervisorTheorems.NotRunningNoProcess` | nodeapps/internal/nodeagent/manager.go:585-664 | a program that is not running has no live process and no recorded one |
| `SupervisorTheorems.LeavesRunningWithoutProcess` | nodeapps/internal/nodeagent/manager.go:585-664 | whichever step takes a program out of Running leaves no process |
| `SupervisorTheorems.StopHasStopped` | nodeapps/internal/nodeagent/manager.go:276-330 | a successful Stop has seen the supervision it cancelled end; unless started again since, the program is down |
| `SupervisorTheorems.EndedForever` | nodeapps/internal/nodeagent/manager.go:585-588 | an ended supervision never acts again |
| `SupervisorTheorems.OneProcessPerName` | nodeapps/internal/nodeagent/manager.go:231-241 | while nothing is removed a name has at most one live process across reinstalls |
| `SupervisorTheorems.NamesStayExclusive` | nodeapps/internal/nodeagent/manager.go:231-241 | every run without a removal keeps that |
| `SupervisorTheorems.RemoveKeepsNamesIff` | nodeapps/internal/nodeagent/manager.go:333-347 | deleting a name keeps it exactly when its definition does not run at that moment |
| `SupervisorTheorems.RemoveRacesStart` | nodeapps/internal/nodeagent/manager.go:333-347 | a run in which a Start meets a Remove and one name ends up with two processes |
| `SupervisorTheorems.StopFindsWhatItMarkedIff` | nodeapps/internal/nodeagent/manager.go:276-330 | whatever runs in between, a Stop cancels the definition it marked if and only if no effective Install or Remove of the name came before its second lookup; otherwise it finds a later one or none |
| `SupervisorTheorems.SameDefinitionIff` | nodeapps/internal/nodeagent/manager.go:231-241 | over every run a name means the same definition at the end if and only if no step rebound it |
| `SupervisorTheorems.RunningKeepsItsName` | nodeapps/internal/nodeagent/manager.go:231-241 | while a definition runs nothing but a Remove can take its name |
| `SupervisorTheorems.StopHitsNewerDefinition` | nodeapps/internal/nodeagent/manager.go:276-330 | from any state, a Stop can cancel a definition installed and started after it was called |
| `SupervisorPolicy.AfterAnExit` | nodeapps/internal/nodeagent/manager.go:585-636 | over every run, what an exit leads to: another process exactly if nobody asked it to stop and the policy, given how it ended, wants one; otherwise Stopped on request, Failed after a failure, Exited after a clean oneshot, which is then no longer wanted, and Stopped after any other clean exit |
| `SupervisorPolicy.WhyItStopsRunning` | nodeapps/internal/nodeagent/manager.go:585-664 | over every run, unasked an always-restarted program leaves Running only when a respawn fails and one restarted on failure only after that or a clean exit; Failed, Exited and Stopped tell which it was |
| `SupervisorPolicy.RespawnsAsAsked` | nodeapps/internal/nodeagent/manager.go:599-664 | another process is spawned only after an exit for which the policy asks for one |
| `SupervisorPolicy.NeverHasOneProcess` | nodeapps/internal/nodeagent/manager.go:599-664 | a supervision of a never-restarted program has one process ever |
| `SupervisorPolicy.WatchedIsRecorded` | nodeapps/internal/nodeagent/manager.go:412-446 | while a process is watched it is the one recorded, and its program runs |
| `SupervisorPolicy.StartRunsOrFails` | nodeapps/internal/nodeagent/manager.go:249-274 | a start leaves a program that did not run either Running behind one new process or Failed with none |
| `SupervisorPolicy.StartTwiceIsOnce` | nodeapps/internal/nodeagent/manager.go:249-262 | a start of a running program, or of a name nobody installed, changes nothing |
| `SupervisorPolicy.InstallIsFresh` | nodeapps/internal/nodeagent/manager.go:231-247 | an install gives the name a new definition that never ran, unless the name's definition runs or asks for a oneshot that is always restarted |
| `SupervisorPolicy.ShutdownKeepsWishes` | nodeapps/internal/nodeagent/manager.go:276-330 | a shutdown terminates running programs without touching what is wanted; a stop marks its program unwanted |
| `Bgp.DecodeBgp` | controller/internal/capture/bgp.go:96-138 | the message loop computes the decoded messages |
| `Bgp.DecodeOpen` | controller/internal/capture/bgp.go:180-224 | OPEN fields and the AS shown |
| `Bgp.DecodeUpdate` | controller/internal/capture/bgp.go:447-502 | UPDATE groups and the kind of summary |
| `Bgp.BgpOpenParams` | controller/internal/capture/bgp.go:229-252 | parameters, capabilities and the last nonzero 4-octet AS |
| `Bgp.BgpCapabilities` | controller/internal/capture/bgp.go:254-274 | one field per capability |
| `Bgp.BgpPrefixFields` | controller/internal/capture/bgp.go:521-539 | one field per prefix, stopping at malformed input |
| `Bgp.BgpAttrFields` | controller/internal/capture/bgp.go:556-589 | one field per attribute, short or extended |
| `Bgp.BgpAsPathSized` | controller/internal/capture/bgp.go:764-800 | segments of either width, or nothing if the lengths do not add up |
| `BgpRanges.MessagesTile` | controller/internal/capture/bgp.go:89-138 | on any bytes the messages tile a prefix of the payload, only the last cut short, stopping only where none starts |
| `BgpRanges.MessagesNest` | controller/internal/capture/bgp.go:154-274 | on any bytes every field lies inside its message, children inside parents, siblings apart |
| `BgpRanges.UpdateArranged` | controller/internal/capture/bgp.go:447-502 | withdrawn routes, attributes and reachable prefixes lie one after the other |
| `BgpRanges.OpenArranged` | controller/internal/capture/bgp.go:180-274 | the fields of an OPEN are consecutive ranges of its body |
| `BgpTruth.MessagesAreTruthful` | controller/internal/capture/bgp.go:96-274 | on any bytes every field shown, at every level, says what the bytes of its own range say: marker, length, type, the OPEN and UPDATE fields, prefixes, attributes, capabilities, error codes; a message cut short is shown with its announced and captured lengths |
| `BgpTruth.HeaderIff` | controller/internal/capture/bgp.go:96-150 | a header is accepted exactly for sixteen 255s, a type from 1 to 5 and a length from 19 to 4096, with the type's number and that length |
| `BgpInverse.DecodeInvertsEncode` | controller/internal/capture/bgp.go:96-138 | any sequence of valid messages comes back with its types, offsets, lengths, header lines and contents |
| `BgpInverse.OpenBack` | controller/internal/capture/bgp.go:180-224 | an encoded OPEN comes back, capabilities and announced AS included |
| `BgpInverse.UpdateBack` | controller/internal/capture/bgp.go:447-502 | an encoded UPDATE comes back |
| `BgpInverse.PrefixesBack` | controller/internal/capture/bgp.go:521-539 | packed prefixes come back |
| `BgpInverse.AttributesBack` | controller/internal/capture/bgp.go:556-589 | attributes come back with one or two length bytes |
| `BgpInverse.PathBack` | controller/internal/capture/bgp.go:764-800 | AS_PATH segments of either width come back when read with it |
| `BgpInverse.FourOctetPathBack` | controller/internal/capture/bgp.go:750-762 | 4-octet paths always come back |
| `BgpInverse.TwoOctetPathBackIff` | controller/internal/capture/bgp.go:750-762 | 2-octet paths come back if and only if their bytes form no 4-octet path or name no AS |
| `BgpInverse.TwoOctetPathMisread` | controller/internal/capture/bgp.go:750-762 | a 2-octet path that does not |
| `Operation.ReportedBetween` | controller/internal/operation/operation.go:213-241 | any report of a step, clamped, lands between the step's two marks on the bar |
| `Operation.ReportedIff` | controller/internal/operation/operation.go:213-241 | a report is the whole percentage of the weight done before its step plus that fraction of the step's own |
| `Operation.ReportedClamps` | controller/internal/operation/operation.go:221-233 | fractions outside the unit interval count as the step's start or end |
| `Operation.MarkIff` | controller/internal/operation/operation.go:152-190 | the bar at a step's end is the whole percentage of the weight done, a step weighing at least one |
| `Operation.MarksGrow` | controller/internal/operation/operation.go:152-200 | the marks grow from 0 to 100 |
| `Operation.Execution.Report` | controller/internal/operation/operation.go:213-241 | a report moves the bar only forward, and a stale one not at all |
| `Operation.Execution.Run` | controller/internal/operation/operation.go:152-241 | with reports at any time, also after a failed step and after the final frame, every frame is shaped, its bar lies in the share of its first unfinished step, progress never falls, and every step that ends was shown running first; from the frame that stores it on every frame shows the outcome |
| `Operation.Feed.Publish` | controller/internal/operation/operation.go:102-127 | every subscriber's buffer is the newest frames, ending in this one |
| `Operation.Feed.Receive` | controller/internal/operation/operation.go:79-100 | a consumer takes its oldest buffered frame and its buffer stays a suffix |
| `Operation.PushKeepsSuffix` | controller/internal/operation/operation.go:79-127 | a buffer stays a contiguous suffix of what was published, and never moves back |
| `ProgressRace.FallsIffOutlived` | controller/internal/operation/operation.go:213-241 | with a report's test and its store as two events, over every interleaving the bar goes back if and only if a report is stored after its own step finished, below where the bar stands |
| `ProgressRace.LateReportFalls` | controller/internal/operation/operation.go:213-241 | such a run |
| `History.ScanIsLog` | controller/internal/metrics/history.go:291-333 | scanning the shards gives every logged point, as far back as none was deleted |
| `History.PointsAre` | controller/internal/metrics/history.go:308-348 | an answer is the points of that server between both ends inclusive, each once and in order |
| `History.TrimmedIs` | controller/internal/metrics/history.go:132-146 | trimming drops exactly the leading points before the cutoff |
| `History.HourIff` | controller/internal/metrics/history.go:150-153 | a shard is named after the hour an instant falls in |
| `History.AppendKeepsMemory` | controller/internal/metrics/history.go:104-146 | taking a point in and trimming loses nothing a query inside the window could ask for |
| `History.ReplayFits` | controller/internal/metrics/history.go:242-287 | a replayed window answers like the log |
| `History.LabHistory.AppendSweep` | controller/internal/metrics/history.go:104-206 | a sweep is logged in order and keeps memory and shards in step, each window of it trimmed to two hours; the first of an hour deletes every shard out of retention, and none deletes another |
| `History.LabHistory.Rollover` | controller/internal/metrics/history.go:184-226 | opening another hour's shard deletes exactly the shards out of retention |
| `History.LabHistory.EnsureLab` | controller/internal/metrics/history.go:85-99 | first touch replays and cleans up |
| `History.LabHistory.Query` | controller/internal/metrics/history.go:291-306 | from memory or from shards the answer is the shard scan, and within retention every point ever logged |
| `Fault.ExactlyOneCovers` | controller/internal/biz/fault.go:260-284 | an off-baseline interface has exactly one applied fault to answer for it |
| `Fault.FreeIsBaseline` | controller/internal/biz/fault.go:33-37 | while no applied fault holds a link both its interfaces are at the baseline |
| `Fault.InjectKeeps` | controller/internal/biz/fault.go:334-360 | injecting on a free target keeps that |
| `Fault.RecoverKeeps` | controller/internal/biz/fault.go:397-463 | recovering keeps it, whether every end was restored or the fault stays applied |
| `Fault.UnstoredInjectionUncovers` | controller/internal/biz/fault.go:240-256 | an injection whose record is not stored leaves interfaces nothing recovers |
| `Fault.WiredPortsApart` | controller/internal/biz/fault.go:317-332 | on a well-formed topology no two links share an interface |
| `Fault.ShapeIff` | controller/internal/biz/fault.go:157-214 | exactly which faults are accepted: which types take an impairment, within which bounds, and on which sides |
| `Fault.FaultUsecase.CreateFaultScenario` | controller/internal/biz/fault.go:57-88 | recorded exactly when its shape is valid and its target exists; nothing is injected |
| `Fault.FaultUsecase.InjectLinkFault` | controller/internal/biz/fault.go:334-360 | on side A, side B or both exactly those ends of the link go down or are shaped as given and no other interface moves, or after a rollback every interface is as before |
| `Fault.FaultUsecase.ApplyFaultScenario` | controller/internal/biz/fault.go:218-316 | the whole new state for each fault type, side by side, refusals and failures included; a restart whose start fails leaves its device paused |
| `Fault.FaultUsecase.RecoverFaultScenario` | controller/internal/biz/fault.go:401-463 | exactly the ends the fault was on are up and unshaped again, or as they were where that failed; still applied exactly if one failed |
| `Fault.FaultUsecase.DeleteFaultScenario` | controller/internal/biz/fault.go:468-482 | recovered first, and kept if that fails |
| `Capture.Window.Append` | controller/internal/capture/window.go:37-46 | the shifted ring always holds the newest packets |
| `Capture.Window.Get` | controller/internal/capture/window.go:55-62 | the packet at a capture index, if the window still holds it |
| `Capture.Window.Page` | controller/internal/capture/window.go:66-81 | the requested rows, an offset that fell out moving to the window's start |
| `Capture.ReadPage` | controller/internal/capture/file.go:21-34 | the same rows from a scan of the recording |
| `Capture.SliceIs` | controller/internal/capture/window.go:64-81 | row by row, which rows a page holds |
| `Capture.PageIsRecordingIff` | controller/internal/capture/window.go:64-81 | page and recording agree if and only if nothing asked for has fallen out |
| `Capture.GapIffDropped` | controller/internal/capture/manager.go:457-491 | between two received batches the indices run on exactly when no batch was dropped in between |
| `Capture.SnapshotThenBatches` | controller/internal/capture/manager.go:376-491 | snapshot and later batches miss no row, and share exactly the rows that were pending and still in the window, so none comes twice if and only if none was pending |
| `Capture.PushedStartsPending` | controller/internal/capture/manager.go:457-491 | what is pushed after a moment is what was pending then, followed by every later row |
| `Capture.Session.Append` | controller/internal/capture/manager.go:426-438 | flushed batches followed by pending rows stay the full row sequence, in index order |
| `Capture.Session.Subscribe` | controller/internal/capture/manager.go:376-425 | the snapshot is the whole window, and the new queue starts empty; a finished session registers nothing |
| `Capture.Session.Flush` | controller/internal/capture/manager.go:457-491 | one batch of everything pending, to every queue with room |
| `Capture.Session.Receive` | controller/internal/capture/manager.go:457-491 | a consumer gets the batches it was given in flushing order |
| `Broadcast.PanicsIff` | controller/internal/capture/manager.go:417-513 | over every interleaving of subscribing, leaving, dropping, flushing and finishing, a send hits a closed channel if and only if a channel was closed after a broadcast copied it and before that broadcast sent to it |
| `Broadcast.RegisteredIff` | controller/internal/capture/manager.go:376-425 | a channel is registered if and only if it was subscribed and neither it was cancelled nor the session dropped since |
| `Broadcast.CopiedIff` | controller/internal/capture/manager.go:457-513 | a broadcast still has to send to a channel if and only if the channel was registered when the broadcast started and has not been sent to since |
| `Broadcast.LeavingUnderAFlushPanics` | controller/internal/capture/manager.go:417-491 | the shortest such run |

## Left out

- Names are structured values; that their string rendering (`pod-1-leaf-3a` and the like) is injective is assumed.
- New identifiers are opaque numbers that differ from every earlier one; wall-clock stamps are dropped.
- Counts of a topology spec are natural numbers; the code's own checks refuse the negative ones an update could name.
- Labs use the default pools and ASN ranges, as every lab the controller creates does; other pool sizes are not modelled.
- Rendered values such as the virtual MAC are the numbers they are rendered from, and a leaf's peer is set when it is made.
- The FRR and containerlab renderers are uninterpreted texts per device, used only to decide reloads.
- The first, from-scratch deploy, repair, destroy, image checks, internet attachment and the two validators are outside the model.
- The delayed teardown of a removed container's network namespace is taken as immediate.
- Commands run inside containers can only succeed or fail; what they configure is not modelled.
- Overlapping applies of one lab: an apply is one atomic step that succeeds or fails before or after its snapshot is saved.
- Repository reads and writes succeed, except in `Fault.UnstoredInjectionUncovers`.
- Program warnings of a preview, traffic scenarios and the pruning of dependent records beyond the sets of names.
- The supervisor's boot order, readiness and health flags, log rotation and persisted metadata; probes are process exits at any moment, and time is nondeterministic.
- Install's checks of names, packages and probe settings; only the refusals that depend on state or on the policy are kept.
- Text of decoded BGP fields: a field carries the bytes its text is made from, and attribute renderers are not modelled apart from AS_PATH.
- gopacket-based summaries and the pcapng format: a packet is its row, and a recording is the sequence of its rows.
- Capture.Session.Flush: the copy under the lock and the sends after it are one step; `Broadcast` takes them apart. The end-of-session event, which can precede the last batch, is only a broadcast there.
- Operation.Execution.Report: the test and the store are one step; `ProgressRace` takes them apart.
- PlanUsecase.Usecase.CreatePlan: the lab's rows carry no identities; what a plan does to them is in `Identity`.
- PlanUsecase.Usecase.CreateRollbackPlan: the same, with the reset of what a rollback brings back.
- History.LabHistory.AppendSweep: the sweep's stamp is at most the retention period old, and shard writes succeed; the windows are filled point by point with the shard lines, where the code fills all windows first with nothing reading in between.
- WellFormedness.CertifiedIsWellFormed: leaf ASNs are unique only up to rack numbers that agree modulo 2^32, because the code computes them in 32 bits.
- gRPC, HTTP, WebSocket and SQLite plumbing, the web UI, package handling, traffic generator, observer and metrics collectors, power actions outside faults.

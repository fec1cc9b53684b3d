# A verified model of the core of the jay Wayland compositor

jay is a Wayland compositor with its own KMS ("metal") backend and a Vulkan
renderer. This project models, in Dafny, a selection of the compositor's sequential
logic (listed below) and proves what that logic promises; the rest of the
compositor is named under "Left out":

- **wl_surface** (`WlSurface`): the double-buffered pending state of a
  surface and the merge of a newer pending state into a cached one (the
  optional fields, damage with its collapse to full damage, the buffer and
  its release, role states and sub-surface states), role assignment, the
  explicit-sync check, `apply_state` (the transform and viewport, the
  buffer and surface size, the attributes, the hand-over of frame
  requests and the reset of the pending damage), the surface extents and
  the tree-transaction barriers with their tardiness rules.
- **commit timeline** (`CommitTimeline`): the per-surface FIFO of commits
  that wait on sync points, uploads, polls, the fifo barrier and a commit
  time, the Wait/Signal entries that keep sub-surface commits ordered, and
  the global depth bound.
- **metal present path** (`MetalPresent`, `MetalDrmState`): frame timing
  against the vblank, render-buffer rotation, damage bookkeeping, cursor
  programming, the atomic change for the primary and cursor planes and
  the choice between asynchronous and synchronous page flips.
- **metal connector transactions** (`MetalTransaction`): requesting
  connector states, the computation of the new DRM state (CRTC and plane
  assignment, mode choice, plane setup, capability checks, reset of unused
  objects), the commit with its modeset retry and the linking of
  connectors to their CRTCs and planes after the commit.
- **metal scanout buffers** (`MetalAllocator`): the order of the prime
  methods chosen by `JAY_PRIME_METHODS`, the modifier sets and GBM usage
  each method allocates with and the order of its failures, the fallback
  over the methods, the damage of new buffers and the copy route from an
  old buffer to a new one.
- **DRM device layer** (`Drm`): display modes and their refresh rate, the
  atomic property change list, connector codes, the `IN_FORMATS` blob,
  the event stream, leases and the GEM handle cache.
- **metal device start-up** (`MetalVideo`): the possible CRTCs of an
  encoder and planes of a CRTC, the check whether the configuration the
  kernel already has can be kept, the reset and reassignment of CRTCs,
  the reuse of the primary planes the kernel shows, the assignment of
  primary planes and scan-out buffers, and the alternation of the two
  scan-out buffers on every page flip.
- **graphics interface** (`GfxApi`): acquire synchronisation, the
  per-format modifier sets and their intersection between two devices,
  the logical size of a transformed framebuffer and the ids of buffer
  reservation users.
- **Vulkan buffer-object allocator** (`VulkanBoAllocator`): the usage
  flags it accepts and the image usage they map to, the validation of a
  modifier against the device limits, the modifier filter of `create_bo`,
  the checks of `import_dmabuf` and the layout of a CPU mapping.
- **Vulkan device** (`VulkanDevice`): the memory type of an allocation,
  the graphics and transfer queue families, the transfer granularity and
  offset masks, the transfer queue index and the device-lost flag.
- **Vulkan images and renderer** (`VulkanCommon`, `VulkanImage`,
  `VulkanRenderer`): the image cells (layout flags, queue ownership,
  execution version), the command-buffer cache, timeline points,
  pending frames and submissions, and the per-frame decisions of
  `try_execute` (region tags, blend-buffer and framebuffer passes,
  clamping, the clear, the sampled textures).
- **asynchronous shm transfers** (`VulkanTransfer`): the newer transfer
  path of shm textures, with queue-family hand-over, host copies between
  client memory and a staging buffer, and completion.
- **shm textures** (`VulkanShmImage`): the validation of a new shm
  texture, the synchronous upload with its packed staging buffer, and the
  asynchronous upload path of the older revision of `shm_image.rs`.
- **EDID** (`EdidFields`, `EdidDescriptors`, `EdidParser`): the decoding
  of the base block's fields (manufacturer code, product identification,
  basic display parameters, chromaticity, established and standard
  timings), the display descriptors and detailed timings, the walk over
  the extension blocks and the data blocks of a CTA-861 extension, and the
  parser cursor with its bounds checks and stored errors.

Kernel calls, GPU work, allocation and clocks are parameters of the model
(functions from a request to the kernel's answer, or plain inputs).
Integers are unbounded; where the source relies on a machine width
(`u32` shifts, `as i32` casts, saturating subtraction) the model writes
the width out (`MachineInt`).

## Model

| member | source | states |
|---|---|---|
| `WlSurface.RoleChange` | src/ifs/wl_surface.rs:898-913 | a role request succeeds exactly from no role or to the same role; otherwise `IncompatibleRole(old, new)` |
| `WlSurface.Surface.SetRole` | src/ifs/wl_surface.rs:898-913 | the role becomes the requested one on success and is unchanged on `IncompatibleRole` |
| `WlSurface.MergeDamage` | src/ifs/wl_surface.rs:562-579 | full damage is sticky; appending past MAX_DAMAGE (32) collapses to full damage with both lists empty; otherwise the lists are concatenated; the bound is preserved and no damage is lost |
| `WlSurface.AddDamage` | src/ifs/wl_surface.rs:986-1010 | full damage adds nothing; a list already at 32 entries switches to full damage; otherwise a negative extent is `InvalidRect` and a valid rectangle is appended to the chosen list only |
| `WlSurface.ManyRequestsCollapse` | src/it/tests/t0047_surface_damage.rs:96-107 | more than 32 well-formed damage requests on one list always end in full damage |
| `WlSurface.FullStaysFull` | src/ifs/wl_surface.rs:997-1008 | once full damage is set, any further requests leave the damage unchanged |
| `WlSurface.ExplicitSyncCheck` | src/ifs/wl_surface.rs:1563-1582 | without explicit sync always Ok; with it, a new buffer needs both points (`MissingSyncPoints`) and points without a buffer are `UnexpectedSyncPoints` |
| `WlSurface.Surface.VerifyExplicitSync` | src/ifs/wl_surface.rs:1563-1582 | records whether explicit sync is active and returns the decision of `ExplicitSyncCheck` on the pending buffer and points |
| `WlSurface.BufferSurfaceSize` | src/ifs/wl_surface.rs:1310-1319 | the surface size is the transformed buffer size divided by the scale, rounded up (the least multiple of the scale covering it) |
| `WlSurface.FoldContainsAcc` | src/ifs/wl_surface.rs:930-957 | a non-empty own rectangle lies inside the computed extents, which are then non-empty |
| `WlSurface.FoldContainsChildren` | src/ifs/wl_surface.rs:930-957 | every non-empty child extent, moved by the child position, lies inside the computed extents |
| `WlSurface.FoldOfEmptyChildren` | src/ifs/wl_surface.rs:936-947 | children with empty extents do not contribute: the extents are the own rectangle |
| `WlSurface.Surface.CalculateExtents` | src/ifs/wl_surface.rs:930-957 | the loop computes the fold of the own rectangle over the children's extents and reports whether they changed |
| `WlSurface.PendingState.SetDamageFull` | src/ifs/wl_surface.rs:624-628 | sets the full-damage flag and empties both damage lists |
| `WlSurface.PendingState.DoDamage` | src/ifs/wl_surface.rs:986-1010 | the pending damage becomes `AddDamage` of the old one; on error it is unchanged |
| `WlSurface.PendingState.MergeBuffer` | src/ifs/wl_surface.rs:512-536 | a newer attach releases the older release point or else the older live buffer, then takes over buffer, sync points and explicit-sync flag |
| `WlSurface.PendingState.MergeOptionals` | src/ifs/wl_surface.rs:544-556 | each of the thirteen `opt!` fields (regions, viewport, scale, transform, xwayland serial, tearing, content type, alpha, commit time, colour description, tree serial) takes the newer value where one is set and keeps the older one otherwise; the newer state is left with none set |
| `WlSurface.OptionalsMergeMonoid` | src/ifs/wl_surface.rs:537-556 | merging the optional fields is associative with the empty state as unit, so caching several commits gives the same values however they are grouped |
| `WlSurface.PendingState.MergeFields` | src/ifs/wl_surface.rs:557-584 | offsets add component-wise, frame requests are appended in order, fifo flags are OR-ed |
| `WlSurface.PendingState.MergeDamageFrom` | src/ifs/wl_surface.rs:562-579 | the damage becomes `MergeDamage` of old and newer damage and the newer state's damage is emptied |
| `WlSurface.MergeExt` | src/ifs/wl_surface.rs:586-596 | `merge_ext!`: an older role state absorbs the newer one, which keeps what the role merge leaves; without an older state the newer one moves over and the newer side is left empty; the result is empty iff both were |
| `WlSurface.PendingState.MergeRoles` | src/ifs/wl_surface.rs:597-598 | the xdg-surface and layer-surface states, old and newer, become `MergeExt` of the old pair |
| `WlSurface.MergeSubsurfaceMaps` | src/ifs/wl_surface.rs:599-608 | the merged sub-surface map has the keys of both; an entry only in one map is that entry; an entry in both keeps the older sub-surface with the pending data merged |
| `WlSurface.PendingState.MergeSubsurfaces` | src/ifs/wl_surface.rs:599-608 | the loop drains the newer map entry by entry; afterwards the map is `MergeSubsurfaceMaps` of old and newer and the newer map is empty |
| `WlSurface.PendingState.Merge` | src/ifs/wl_surface.rs:512-608 | the whole merge: damage, optionals, offset, frame requests, buffer with its sync points and release, fifo flags, both role states and the sub-surface map, each as its part states, with the newer state emptied and the MAX_DAMAGE bound kept on both |
| `WlSurface.PendingState.TakeCommitted` | src/ifs/wl_surface.rs:1372-1378 | hands over the frame requests and the fifo barrier flag and leaves no pending damage, no full damage and no fifo flags |
| `WlSurface.Surface.Attach` | src/ifs/wl_surface.rs:1075-1089 | from version 5 a non-zero offset is `OffsetInAttach` and nothing changes; before, the offset is stored; the buffer (or null) becomes pending |
| `WlSurface.Surface.SetBufferScale` | src/ifs/wl_surface.rs:1153-1159 | scales below 1 are `NonPositiveBufferScale`; otherwise the scale becomes pending |
| `WlSurface.Surface.Offset` | src/ifs/wl_surface.rs:1167-1170 | the pending offset is replaced |
| `WlSurface.Surface.TakeTransformState` | src/ifs/wl_surface.rs:1183-1201 | pending scale, transform, destination size and source rectangle replace the current ones and are taken; a change of any is reported, and of the last two as a viewport change |
| `WlSurface.Surface.TakeBuffer` | src/ifs/wl_surface.rs:1228-1277 | the pending buffer replaces the current one; a null attach resets the buffer position; the offset moves it only with a buffer attached; buffer and offset are taken |
| `WlSurface.Surface.UpdateSize` | src/ifs/wl_surface.rs:1278-1373 | after a buffer or transform change the size becomes the destination size, else the integral source size, else the buffer-derived size, else zero; otherwise it is kept |
| `WlSurface.Surface.ApplyState` | src/ifs/wl_surface.rs:1174-1496 | the surface and its pending state after the call, and the result, are `ApplyStateOf` of the state before (the geometry step, then unless it failed the attribute and hand-over step), and the surface invariant is kept |
| `WlSurface.Surface.ApplyGeometry` | src/ifs/wl_surface.rs:1183-1373 | the surface and pending state become `GeometryStepOf` of the old: a fractional viewport returns the error with only the transform state taken; otherwise colour description, alpha, buffer and offset are taken too and the size is recomputed |
| `WlSurface.CommitRefusesFractionalViewport` | src/ifs/wl_surface.rs:1202-1208 | the geometry step fails exactly when a viewport change leaves a source rectangle of fractional size and no destination size, and then only the transform state has been applied |
| `WlSurface.CommitSize` | src/ifs/wl_surface.rs:1278-1373 | on success the size is the one the new geometry calls for after a buffer or transform change, and the old one otherwise; size change is reported iff it differs |
| `WlSurface.CommitDamage` | src/ifs/wl_surface.rs:1220-1225 | on success full damage is due iff scale, transform, viewport, colour description, alpha or the size changed |
| `WlSurface.CommitNothing` | src/ifs/wl_surface.rs:1183-1225 | with no transform, viewport or look change pending and no buffer attached, the geometry is unchanged and nothing is damaged |
| `WlSurface.CommitAttributes` | src/ifs/wl_surface.rs:1388-1421 | the opacity is recomputed from the opaque region and the size exactly when either changed, and kept otherwise; with nothing pending and no size change the attributes stay as they were |
| `WlSurface.Surface.TakeLook` | src/ifs/wl_surface.rs:1209-1218 | pending colour description and alpha multiplier replace the current ones and are taken |
| `WlSurface.Surface.TakeAttributes` | src/ifs/wl_surface.rs:1388-1421 | the attributes become `CommitAttributes` of the old ones; the input-region change, the tearing change and the xwayland serial are reported; those optionals are taken |
| `WlSurface.Surface.FinishApply` | src/ifs/wl_surface.rs:1374-1484 | the surface and pending state become `FinishStepOf` of the old: attributes applied, frame requests moved over in order, pending damage and fifo flags reset |
| `WlSurface.ApplyStateRefusesFractionalViewport` | src/ifs/wl_surface.rs:1174-1208 | a commit is refused with `NonIntegerViewportSize` exactly when a viewport change leaves a fractional size, and then only the transform state is taken and everything else stays as it was |
| `WlSurface.ApplyStateDrainsPending` | src/ifs/wl_surface.rs:1374-1484 | an accepted commit leaves nothing pending but commit time and tree serial, appends the pending frame requests, resets damage and fifo flags, and reports the input-region change, fifo barrier and xwayland serial; full damage iff transform, viewport, look or size changed |
| `WlSurface.ApplyStateSettles` | src/ifs/wl_surface.rs:1174-1496 | right after an accepted commit, committing again changes nothing and reports no damage, no tree change, no tearing change, no fifo barrier and no serial |
| `WlSurface.DropWhile` | src/ifs/wl_surface.rs:1770-1781 | the remaining queue is a suffix; its head, if any, fails the condition, and every dropped barrier satisfied it |
| `WlSurface.Surface.PopTreeBarriers` | src/ifs/wl_surface.rs:1770-1781 | the loop leaves the queue as `DropWhile` of the old one and reports whether it shrank |
| `WlSurface.AckBarriersDrops` | src/ifs/wl_surface.rs:1783-1796 | acking leaves a suffix whose head is for a later serial (and, while tardy, not timed out); every dropped barrier was acked or timed out; a non-tardy surface stays non-tardy |
| `WlSurface.AckEndsTardiness` | src/ifs/wl_surface.rs:1783-1800 | tardiness ends exactly when some dropped barrier had not timed out, that is when some acked barrier arrived in time |
| `WlSurface.AckWhenNotTardy` | src/ifs/wl_surface.rs:1783-1796 | a surface that is not tardy drops exactly the barriers for acked serials |
| `WlSurface.Surface.HandleAckedSerial` | src/ifs/wl_surface.rs:1783-1804 | the loop leaves the queue and the tardiness as `AckBarriers` of the old state, records the acked serial and reports when tardiness was disabled |
| `WlSurface.Surface.PushTreeBlocker` | src/ifs/wl_surface.rs:1806-1829 | a barrier is queued iff the transaction serial is used or the last scheduled serial is still blocked, for that serial and weak iff the surface is tardy; otherwise nothing changes |
| `WlSurface.Surface.Unblocked` | src/ifs/wl_surface.rs:2346-2368 | a timeout before the serial was acked makes the surface tardy and clears its queue; other timeouts drop unblocked barriers, a tardy surface drops timed-out ones; the unblocked serial only grows, and every serial up to the given one is then unblocked |
| `CommitTimeline.Collect` | src/ifs/wl_surface/commit_timeline.rs:724-749 | the recursive collection over the pending tree equals the reference summary of the flattened tree added to the accumulator |
| `CommitTimeline.SummarizeTimeIsMax` | src/ifs/wl_surface/commit_timeline.rs:740-742 | the collected commit time is the maximum of the commit times in the tree: every one is at most it, and it is zero or one of them |
| `CommitTimeline.ExplicitSyncHasNoImplicitFds` | src/ifs/wl_surface/commit_timeline.rs:730-737 | states that all use explicit sync contribute no implicit dmabuf fds |
| `CommitTimeline.NoShmNoUploads` | src/ifs/wl_surface/commit_timeline.rs:726-729 | states without a shm buffer contribute no shm uploads |
| `CommitTimeline.CommitTimeout` | src/ifs/wl_surface/commit_timeline.rs:577-582 | the timeout is the time minus min(render + flip margin, refresh), floored at zero, and never later than the time |
| `CommitTimeline.CommitTimeReadyIff` | src/ifs/wl_surface/commit_timeline.rs:577-585 | registering a commit time yields `Ready` exactly when the time is at most now plus the present margin |
| `CommitTimeline.MaybeApplyCommit` | src/ifs/wl_surface/commit_timeline.rs:489-549 | a head commit with outstanding sync-obj waits, uploads, polls, a set fifo barrier or a registered commit time is not applied; one with none of them and an unblocked serial is applied; a queued fifo wait is registered exactly when the barrier is set |
| `CommitTimeline.MustBeQueued` | src/ifs/wl_surface/commit_timeline.rs:218-233 | a commit is applied immediately iff it has no dependencies, the own timeline is empty, it does not wait on a set fifo barrier and its serial is not blocked |
| `CommitTimeline.NewCommit` | src/ifs/wl_surface/commit_timeline.rs:242-289 | the queued commit carries one wait per acquire point, one poll per implicit plane, an upload to do iff there are shm buffers, a fifo wait iff requested and a queued commit time iff one was given |
| `CommitTimeline.FindKey` | src/ifs/wl_surface/commit_timeline.rs:354-435 | the index returned is the first entry with the key, or the length when there is none |
| `CommitTimeline.CommitIdsAppend` | src/ifs/wl_surface/commit_timeline.rs:470-481 | the commits of a concatenation are the commits of the parts, in order |
| `CommitTimeline.DrainCompose` | src/ifs/wl_surface/commit_timeline.rs:470-481 | removing entries from the front twice removes the concatenation of the two removed prefixes |
| `CommitTimeline.FlushedConserved` | src/ifs/wl_surface/commit_timeline.rs:470-487 | flushing moves commits from the front of each queue to the end of the applied log: for every surface, applied-then-queued is unchanged (FIFO order) |
| `CommitTimeline.AppendEnqueued` | src/ifs/wl_surface/commit_timeline.rs:77-91 | appending a commit adds exactly its id to the end of its surface's history |
| `CommitTimeline.ImmediateEnqueued` | src/ifs/wl_surface/commit_timeline.rs:230-233 | applying a commit of a surface with an empty timeline adds exactly its id to the end of that surface's history |
| `CommitTimeline.TotalUpdate` | src/ifs/wl_surface/commit_timeline.rs:82 | replacing one timeline changes the total entry count by the difference of the two lengths |
| `CommitTimeline.CommitTimelines.constructor` | src/ifs/wl_surface/commit_timeline.rs:116-154 | every surface starts with an empty own timeline that is also its effective timeline, depth zero and no fifo barrier |
| `CommitTimeline.CommitTimelines.AddEntry` | src/ifs/wl_surface/commit_timeline.rs:77-91 | the entry is appended at the end of the timeline and the depth grows by one |
| `CommitTimeline.CommitTimelines.PopHead` | src/ifs/wl_surface/commit_timeline.rs:471-473 | an applied head is removed and the depth shrinks by one |
| `CommitTimeline.CommitTimelines.FlushCommit` | src/ifs/wl_surface/commit_timeline.rs:489-549 | an applied head commit is logged and removed; otherwise its updated counters are stored in place |
| `CommitTimeline.CommitTimelines.FlushStep` | src/ifs/wl_surface/commit_timeline.rs:484-558 | one `maybe_apply` on the head: a signalled Wait is removed, an unsignalled one stays, a Signal is removed after signalling its Wait |
| `CommitTimeline.CommitTimelines.MarkSignalled` | src/ifs/wl_surface/commit_timeline.rs:544-549 | the Wait is marked signalled and its timeline is flushed when the Wait is at its head |
| `CommitTimeline.CommitTimelines.FlushHead` | src/ifs/wl_surface/commit_timeline.rs:470-481 | on every timeline the removed entries are a prefix and the applied commits are exactly that prefix's commits in order; the depth stays equal to the number of entries |
| `CommitTimeline.CommitTimelines.FlushFrom` | src/ifs/wl_surface/commit_timeline.rs:470-487 | a node with a predecessor is not applied, so nothing changes; otherwise the timeline is flushed from its head |
| `CommitTimeline.CommitTimelines.SwitchEffective` | src/ifs/wl_surface/commit_timeline.rs:756-766 | switching to a different timeline away from a non-empty one appends a fresh Wait to the new timeline and a matching Signal to the old one; otherwise no entry is added |
| `CommitTimeline.CommitTimelines.SetEffectiveTimeline` | src/ifs/wl_surface/commit_timeline.rs:751-772 | every surface of the tree now follows the given timeline, no commit is added or removed, and timelines only grow at their ends |
| `CommitTimeline.CommitTimelines.CommitSurface` | src/ifs/wl_surface/commit_timeline.rs:201-306 | an unqueued commit is applied at once; a queued one at depth 256 or more is `Depth` with nothing changed; otherwise the commit id is added to the end of its surface's history and no other history changes |
| `CommitTimeline.CommitTimelines.DependencyDone` | src/ifs/wl_surface/commit_timeline.rs:354-435 | a completion updates the commit's counter (or makes its time ready) and flushes from it; a commit that is not at the head is only updated; no commit is lost or reordered |
| `CommitTimeline.CommitTimelines.BeforeLatch` | src/ifs/wl_surface/commit_timeline.rs:323-345 | yields exactly when a commit-time waiter is due by the present time; then the waiter is cleared and a flush of its commit is queued |
| `CommitTimeline.CommitTimelines.ClearFifoBarrier` | src/ifs/wl_surface/commit_timeline.rs:312-317 | the barrier is lowered and a commit waiting on it is queued for flushing |
| `CommitTimeline.CommitTimelines.TreeUnblocked` | src/ifs/wl_surface/commit_timeline.rs:347-351 | a commit blocked on its tree serial is flushed; without one nothing changes |
| `CommitTimeline.CommitTimelines.ProcessFlushRequests` | src/ifs/wl_surface/commit_timeline.rs:779-790 | the queued requests are all served and every surface's history is conserved |
| `MetalDrmState.FixedSize` | src/backends/metal/present.rs:401-402 | an i32 size cast to u32 and shifted into 16.16 fixed point stays a u32; for sizes below 2^16 it is the size times 65536 and shifting back returns the size |
| `MetalDrmState.ApplyChangesAppend` | src/backends/metal/present.rs:347-502 | performing two batches of property writes one after the other is performing their concatenation |
| `MetalPresent.CommitDeadline` | src/backends/metal/present.rs:131-135 | the start deadline is the next vblank less both margins, never later than the vblank, and 0 when the margins exceed it (saturating subtraction) |
| `MetalPresent.PlanPresent` | src/backends/metal/present.rs:125-141 | an async flip is never delayed and expects the next sequence; a scheduled present sleeps exactly when the deadline is still ahead, never past the vblank, and expects one sequence later when the deadline was missed |
| `MetalPresent.NextBufferIndex` | src/backends/metal/present.rs:200 | the buffer after the shown one, wrapping to 0 after the last |
| `MetalPresent.DamageAll` | src/backends/metal/present.rs:586-590 | the output's damage is appended to every buffer's queue and nothing else changes |
| `MetalPresent.ClearDamage` | src/backends/metal/present.rs:304-308 | one buffer's queue is emptied and every other buffer is kept |
| `MetalPresent.DamageFull` | src/backends/metal/allocator.rs:198-202 | after `damage_full` of one buffer every buffer of its queue group owes exactly that buffer's whole rectangle, and nothing else of any buffer changes |
| `MetalPresent.ResetDamage` | src/backends/metal/present.rs:280-285 | after a reset every buffer owes exactly the full rectangle of buffer 0; framebuffers, sizes and lock flags are kept |
| `MetalPresent.PresentedBuffers` | src/backends/metal/present.rs:302-312 | after a rendered frame only the flipped buffer's queue is cleared and the others keep theirs; after direct scanout all queues are reset; the flipped buffer records the lock state |
| `MetalPresent.Latch` | src/backends/metal/present.rs:578-611 | a frame is latched exactly when damage is pending, carrying the damage count and the session lock state |
| `MetalPresent.ComputeCursorProgramming` | src/backends/metal/present.rs:546-576 | programming exists iff the cursor changed and there is a cursor plane; a disabled cursor is taken off; an enabled one shows buffer (cursor_fb_idx + swap) % len at the cursor position with that buffer's size |
| `MetalPresent.CursorShowsDrawnBuffer` | src/backends/metal/present.rs:510-518 | with a swap, the buffer shown is the back buffer latch_cursor drew into; without one, the current front buffer |
| `MetalPresent.TargetGeometry` | src/backends/metal/present.rs:363-382 | a rendered frame fills the plane's mode from (0,0); a direct-scanout buffer uses its scanout position; source sizes are in 16.16 fixed point |
| `MetalPresent.GeometryChanges` | src/backends/metal/present.rs:391-406 | a geometry property is written iff it differs from the remembered value; no writes iff the geometry is unchanged; all writes go to the primary plane |
| `MetalPresent.GeometryChangesApply` | src/backends/metal/present.rs:391-406 | performing the geometry writes leaves the plane with the target geometry and every other property as it was |
| `MetalPresent.ProgramPrimary` | src/backends/metal/present.rs:383-411 | the framebuffer is always written and the geometry writes are exactly the differing ones; performing the writes yields the new plane state; the connector records fb, lock and geometry, and fb_idx advances only for a non-direct frame |
| `MetalPresent.ProgramCursor` | src/backends/metal/present.rs:413-466 | performing the writes yields the new cursor plane state; Disable detaches framebuffer and CRTC; Enable writes position, size, 16.16 source size and fb, and advances cursor_fb_idx only on a swap |
| `MetalPresent.EnableCursor` | src/backends/metal/present.rs:425-454 | every cursor property is written for an enabled cursor (the in-fence does not change the remembered state), so the new plane state is the cursor's position and size |
| `MetalPresent.PlanProgram` | src/backends/metal/present.rs:357-466 | an async flip is tried iff tearing is wanted and supported, the cursor is not reprogrammed and the primary geometry is unchanged; planes are reprogrammed exactly when there is a frame or a cursor change |
| `MetalPresent.AsyncFlipOnlySwapsFramebuffer` | src/backends/metal/present.rs:383-411 | when an async flip is attempted the change consists only of the new primary framebuffer |
| `MetalPresent.SyncChanges` | src/backends/metal/present.rs:481-495 | the synchronous request is the planned change plus, except on NVIDIA, the primary in-fence when a frame and a signalled sync file exist and the CRTC out-fence pointer last |
| `MetalPresent.CommitOutcome` | src/backends/metal/present.rs:468-501 | a version change gives OutOfDate before any commit; a successful async flip marks the presentation asynchronous; otherwise the synchronous commit decides, the presentation becomes synchronous, and a failure reports the kernel's errno |
| `MetalPresent.MetalConnector.PreparePresentFb` | src/backends/metal/present.rs:796-866 | direct scanout is used when allowed and available; otherwise the frame is rendered into the buffer, failing with RenderFrame when rendering fails; the lock state of the latch is kept |
| `MetalPresent.MetalConnector.LatchCursor` | src/backends/metal/present.rs:504-544 | the cursor damage flag is consumed; without damage or cursor plane nothing else changes; a failed copy of a redrawn cursor is an error; otherwise the hardware cursor state is adopted and cursor_changed is set when enable, position or image changed |
| `MetalPresent.MetalConnector.ProgramConnector` | src/backends/metal/present.rs:347-502 | the result and presentation_is_sync follow CommitOutcome for the planned change and the kernel's answers to the async and sync requests |
| `MetalPresent.MetalConnector.PresentOnce` | src/backends/metal/present.rs:176-326 | nothing changes unless both buffers and CRTC are idle and a render context, active CRTC, primary plane and buffers exist; a failed cursor copy returns `CopyToDevice` with the buffers kept; with neither damage nor a cursor change nothing is presented and the buffers are kept; when a frame is attempted but the CRTC stays idle the DRM state is unchanged, no damage is lost, and the buffers are the output-damaged ones after a render failure and otherwise have their damage reset to full; a commit leaves the CRTC with a pending flip, buffers busy and the cursor unchanged; with pending damage the buffers become PresentedBuffers of the damaged queues for buffer (fb_idx + 1) % len, the connector shows the new framebuffer and fb_idx advances unless the frame was scanned out directly; without damage buffers, framebuffer and fb_idx stay; cursor_fb_idx advances exactly when a changed, enabled, swapped cursor was programmed; damage arriving during the wait is kept for the next frame |
| `MetalPresent.MetalConnector.PresentLatched` | src/backends/metal/present.rs:210-326 | after the cursor is latched: with neither damage nor a changed cursor on a cursor plane nothing changes; a frame left with an idle CRTC keeps the DRM state and has its buffers output-damaged after a render failure, otherwise reset to full damage; a commit gives the new framebuffer, buffer index, cursor index and damage queues |
| `MetalPresent.MetalConnector.CommitFrame` | src/backends/metal/present.rs:235-299 | a commit happens only if the version was unchanged at the first or the retried commit; it subtracts the latched damage count, records PresentedBuffers for the flipped buffer, the new framebuffer and fb_idx, and cursor_fb_idx per the cursor swap; a failed commit resets all buffer damage and leaves the connector state as it was, and a failed render leaves the buffers as they were |
| `MetalPresent.MetalConnector.PresentFrame` | src/backends/metal/present.rs:218-326 | the latched frame is prepared (a failed render changes nothing further), damage from the wait is added, and the commit results of CommitFrame hold; a failure never loses damage |
| `MetalPresent.MetalConnector.AttemptCommit` | src/backends/metal/present.rs:235-268 | a framebuffer exists iff a frame was latched; a failed direct scanout is retried with a rendered frame, and only a failed render yields RenderFrame; a success happened at the version of the first or the retried commit with the planned connector state |
| `MetalPresent.MetalConnector.CommitPlanned` | src/backends/metal/present.rs:235-244 | a commit never fails with RenderFrame; on success the version was current and the connector shows the new framebuffer with fb_idx and cursor_fb_idx advanced as planned |
| `MetalPresent.PlanConnector` | src/backends/metal/present.rs:357-466 | the planned connector state shows the new framebuffer (or keeps the old one), advances fb_idx exactly for a rendered frame and cursor_fb_idx exactly for an enabled, swapped cursor |
| `MetalPresent.CommittedConnector` | src/backends/metal/present.rs:347-502 | a commit outcome is never RenderFrame; a successful outcome implies an unchanged version and the planned connector state |
| `MetalPresent.MetalConnector.FinishPresent` | src/backends/metal/present.rs:298-324 | a commit stores connector and plane states, the next framebuffer, zero-copy state, buffer damage and lock per PresentedBuffers, clears the cursor swap when a swapped cursor was shown, and subtracts the latched damage count |
| `MetalPresent.MetalConnector.PresentLoopStep` | src/backends/metal/present.rs:110-163 | a wake-up is skipped unless idle with CRTC and output; a version change during latching retriggers; the flip time is now for async flips and the next vblank otherwise; a scheduled present records its expected sequence |
| `Drm.ToRaw` | src/video/drm.rs:937-958 | the raw mode keeps every timing field; its name field is 32 bytes: the first 32 bytes of the name followed by zeros |
| `Drm.RawNameKeepsShortName` | src/video/drm.rs:937-940 | a name of at most 32 bytes is passed to the kernel whole |
| `Drm.RefreshRateMillihz` | src/video/drm.rs:968-976 | the refresh rate is a u32; its value, the clock over the pixels per frame rounded half up, is stated by `RefreshRateRoundsToNearest` |
| `Drm.RefreshRateRoundsToNearest` | src/video/drm.rs:968-976 | for an even line count the rate is the clock in mHz over the pixels per frame, rounded half up (the simplification the source's comment states) |
| `Drm.ConnectorTypeFromDrm` | src/video/drm.rs:1100-1124 | codes 1 to 20 name a connector kind and any other code is `Unknown` of that code; `to_drm` gives the code back for every code |
| `Drm.ConnectorTypeRoundTrip` | src/video/drm.rs:1127-1152 | every kind with a code of its own round-trips through the code; the embedded window comes back as `Unknown(0)` |
| `Drm.ConnectorStatusFromDrm` | src/video/drm.rs:1222-1229 | 1, 2 and 3 are connected, disconnected and unknown; every other code is `Other` of that code |
| `Drm.Change.ChangeObject` | src/video/drm.rs:1034-1052 | the closure's writes are appended and attributed to the object, merged into the last group when it is the same object; no group for an object without writes; the shape `mode_atomic` asserts is kept |
| `Drm.Change.WriteAll` | src/video/drm.rs:1055-1058 | each write appends its property and its value |
| `Drm.Change.Record` | src/video/drm.rs:1041-1050 | the new writes are counted for the object, growing the last count when it is the same object and pushing a new object otherwise |
| `Drm.RangeNeverWraps` | src/video/drm.rs:499-512 | with 32-bit header fields the 64-bit wrapping range ends never wrap, so only the blob length can reject a range |
| `Drm.ClearLowestBit` | src/video/drm.rs:527-529 | clearing the lowest set bit removes exactly the first of the set bit positions |
| `Drm.InFormatsMeaning` | src/video/drm.rs:483-538 | the blob is accepted iff the header fits with the current version, both ranges fit and every set bit plus offset names a format; then one entry per format code in order, each with exactly the modifiers whose bits name it |
| `Drm.GetInFormats` | src/video/drm.rs:483-538 | the parse is InFormatsOf of the blob |
| `Drm.AddModifiers` | src/video/drm.rs:524-537 | the loop over the modifiers adds each one in turn and stops at the first error |
| `Drm.AddModifier` | src/video/drm.rs:525-536 | walking the set bits lowest first adds the modifier to each named format and fails at the first index past the end |
| `Drm.EventStepAsWritten` | src/video/drm.rs:549-583 | (as written) a header of length 0 within the buffer is accepted |
| `Drm.ZeroLengthEventLoopsForever` | src/video/drm.rs:549-583 | an 8-byte header of type 0 and length 0 is consumed without shortening the buffer |
| `Drm.EventStepOf` | src/video/drm.rs:549-583 | every accepted step shortens the buffer and agrees with the source's step |
| `Drm.ParseEventsFailsOnlyOnBadRead` | src/video/drm.rs:549-583 | decoding fails only with InvalidRead |
| `Drm.EventQueue.Event` | src/video/drm.rs:542-588 | (corrected) a queued event is handed out oldest first without reading; otherwise a read failure is reported, or the decoded events are queued in order (also those before a decoding error, which is reported) and the first of them returned |
| `Drm.DrmLease.TryRevoke` | src/video/drm.rs:283-298 | once revoked, every call reports success; otherwise the kernel's answer is reported and recorded |
| `MetalTransaction.MetalDeviceTransaction.Add` | src/backends/metal/transaction.rs:210-228 | a connector of the transaction gets the requested state and is marked requested; a leased connector of the device is `LeasedConnector`, any other `UnknownConnector`, and then nothing changes |
| `MetalTransaction.MetalDeviceTransaction.DisableDirectScanout` | src/backends/metal/transaction.rs:230-232 | direct scanout is no longer allowed for the transaction |
| `MetalTransaction.AddKeepsShape` | src/backends/metal/transaction.rs:210-228 | a request keeps the transaction well formed and keeps connectors on distinct CRTCs |
| `MetalTransaction.ModesEqual` | src/backends/metal/transaction.rs:1082-1096 | two modes are equal exactly when they agree on everything but type and name; equal modes look the same to the backend |
| `MetalTransaction.ModesEqualIsEquivalence` | src/backends/metal/transaction.rs:1082-1096 | mode equality is reflexive, symmetric and transitive |
| `MetalTransaction.CollectCrtcs` | src/backends/metal/transaction.rs:242-248 | every CRTC gets empty planes, and a CRTC starts unused exactly when no connector drives it |
| `MetalTransaction.SortPlaneKeepsSorted` | src/backends/metal/transaction.rs:254-290 | one step of the plane pass keeps the invariant: discarded planes have no CRTC, a kept plane is the one plane of its type of its used CRTC, and every slot holds such a plane |
| `MetalTransaction.SortPlanes` | src/backends/metal/transaction.rs:254-290 | after the plane pass every plane is discarded or the only plane of its type of a used CRTC; overlays are always discarded; CRTCs, connectors and plane objects are untouched |
| `MetalTransaction.FirstPasses` | src/backends/metal/transaction.rs:242-290 | the CRTC and plane passes establish the connector pass's invariant and keep the connectors |
| `MetalTransaction.FreeCrtc` | src/backends/metal/transaction.rs:303-316 | the CRTC becomes unused with no planes; its primary and cursor plane become unused and lose their CRTC; no other plane changes |
| `MetalTransaction.ResetConnector` | src/backends/metal/transaction.rs:318 | the connector gets the default state and nothing else changes |
| `MetalTransaction.ReleaseConnector` | src/backends/metal/transaction.rs:299-320 | an unlit connector gets the default state; its CRTC, if any, becomes unused with no planes, and the CRTC's planes become unused without a CRTC; the invariant holds and nothing outside that CRTC changes |
| `MetalTransaction.FirstUnusedCrtc` | src/backends/metal/transaction.rs:322-330 | the first of the connector's possible CRTCs, in order, that is unused; `None` exactly when none is |
| `MetalTransaction.TakeCrtc` | src/backends/metal/transaction.rs:331-333 | the connector takes the CRTC, which leaves the unused set; the invariant holds and only that connector changes |
| `MetalTransaction.ActivateCrtc` | src/backends/metal/transaction.rs:335-337 | the connector's CRTC becomes active as requested and assigned to the connector |
| `MetalTransaction.ValidateSlot` | src/backends/metal/transaction.rs:340-364 | a slot keeps its plane only if the plane supports the format (the cursor format for the cursor slot) and is emptied otherwise, the plane going to the unused set |
| `MetalTransaction.ValidateSlotDrop` | src/backends/metal/transaction.rs:348-364 | a plane dropped from a slot is unused with no CRTC attached |
| `MetalTransaction.ValidateSlots` | src/backends/metal/transaction.rs:348-364 | afterwards every plane in the CRTC's slots supports the format |
| `MetalTransaction.PickPlane` | src/backends/metal/transaction.rs:365-389 | (corrected) the first possible plane of the type that is unused and supports the format; `None` exactly when there is none |
| `MetalTransaction.FillAsWritten` | src/backends/metal/transaction.rs:376-388 | (as written) every fitting plane is taken in turn, so the slot ends with the last one and all of them leave the unused set |
| `MetalTransaction.FillAsWrittenStrandsAPlane` | src/backends/metal/transaction.rs:376-388 | with two fitting primary planes the loop as written fills the slot with the second and takes both out of the unused set, so the first keeps its framebuffer without a CRTC |
| `MetalTransaction.FillSlot` | src/backends/metal/transaction.rs:365-389 | (corrected) an empty slot takes the first fitting plane, which leaves the unused set; a full slot or no fitting plane changes nothing; the invariant holds |
| `MetalTransaction.FillSlots` | src/backends/metal/transaction.rs:365-389 | (corrected) filling both slots keeps every slot's plane supporting the format and keeps the invariant |
| `MetalTransaction.PrepareSlots` | src/backends/metal/transaction.rs:340-389 | (corrected) afterwards every plane of the CRTC's slots supports the format; the transaction objects are unchanged and nothing outside the CRTC changes |
| `MetalTransaction.AttachCrtc` | src/backends/metal/transaction.rs:321-396 | (corrected) `NoCrtcForConnector` exactly when the connector has no CRTC and none of its possible CRTCs is unused; on success the connector drives an active, assigned CRTC with a primary plane, and every plane of its slots supports the format |
| `MetalTransaction.FindMode` | src/backends/metal/transaction.rs:398-403 | the first mode of the backend form requested; `None` exactly when no mode has that form |
| `MetalTransaction.ChooseMode` | src/backends/metal/transaction.rs:404-415 | an equal current mode is kept with its blob; otherwise the mode is stored with a new blob, and a failed blob creation is `CreateModeBlob`; the CRTC then runs a mode equal to the chosen one |
| `MetalTransaction.ChooseFb` | src/backends/metal/transaction.rs:513-633 | a cursor plane without framebuffer is detached; otherwise the plane shows the direct-scanout framebuffer with the connector's geometry, the current framebuffer when it may be shown, the first new buffer, or the other buffer, blanked and locked, when the current image may not be shown |
| `MetalTransaction.PlanePlan` | src/backends/metal/transaction.rs:420-633 | the plane is assigned to the CRTC; a primary plane is attached and, without direct scanout, covers the mode from the origin with `SRC_W`/`SRC_H` in 16.16; a cursor plane is attached iff the connector has a cursor framebuffer; allocation failure is `AllocateScanoutBuffers` |
| `MetalTransaction.InstallPlane` | src/backends/metal/transaction.rs:420-646 | the plane takes its new state and buffers, the connector its framebuffer index and (primary) geometry, and is marked changed when buffers were allocated; nothing else changes |
| `MetalTransaction.SetupPlane` | src/backends/metal/transaction.rs:420-646 | the plane is assigned to the CRTC with buffers; a primary plane is attached and shares the connector's geometry; the connector otherwise keeps its state |
| `MetalTransaction.SetupPrimary` | src/backends/metal/transaction.rs:420-646 | the primary plane is attached to the CRTC with the connector's geometry and the connector still drives the CRTC |
| `MetalTransaction.SetupCursor` | src/backends/metal/transaction.rs:420-646 | the cursor plane, if any, is set up and the primary plane stays ready |
| `MetalTransaction.SetupPlanes` | src/backends/metal/transaction.rs:420-646 | both planes are set up in turn and the connector's planes are ready |
| `MetalTransaction.ConfigurePlanes` | src/backends/metal/transaction.rs:397-646 | `UnsupportedMode` only when no mode has the requested form; on success the CRTC runs such a mode and the planes are ready |
| `MetalTransaction.CapabilityError` | src/backends/metal/transaction.rs:652-686 | no error exactly when VRR, tearing, BT.2020 and PQ are each either not requested or supported; VRR without capability is `NotVrrCapable` |
| `MetalTransaction.CheckCapabilities` | src/backends/metal/transaction.rs:652-690 | fails exactly with the first capability error; otherwise VRR is recorded in the CRTC as requested and a present color space is set to the requested one |
| `MetalTransaction.FinishConnector` | src/backends/metal/transaction.rs:652-690 | after the checks the connector is configured; an error is the first capability error |
| `MetalTransaction.ConfigureAttached` | src/backends/metal/transaction.rs:397-690 | a connector with its CRTC attached is configured, or fails with a mode, blob, allocation or capability error |
| `MetalTransaction.ConfigureLit` | src/backends/metal/transaction.rs:321-690 | (corrected) a lit connector ends configured on success; `NoCrtcForConnector` exactly when it has no CRTC and none of its CRTCs is unused; `UnsupportedMode` only without such a mode |
| `MetalTransaction.ConfigureConnector` | src/backends/metal/transaction.rs:296-717 | (corrected) an unlit connector is released; a lit one is configured; only a lit connector can fail |
| `MetalTransaction.ConfiguredFrame` | src/backends/metal/transaction.rs:296-717 | (corrected) a step for one connector leaves every other configured connector configured |
| `MetalTransaction.ConfigureConnectors` | src/backends/metal/transaction.rs:296-717 | (corrected) after the connector pass every connector is configured and the shape of the transaction is kept; a failure needs a lit connector |
| `MetalTransaction.ResetCrtcs` | src/backends/metal/transaction.rs:719-723 | exactly the unused CRTCs get the default state |
| `MetalTransaction.ResetPlanes` | src/backends/metal/transaction.rs:724-728 | exactly the unused planes get the default state and lose their buffers |
| `MetalTransaction.SettledAfterReset` | src/backends/metal/transaction.rs:719-728 | after the reset every unlit connector is default, every lit connector drives an assigned, active CRTC with the requested mode and a primary plane of its geometry, every CRTC and plane is reset or used by a lit connector, and no two planes of a type share a CRTC |
| `MetalTransaction.ResetUnused` | src/backends/metal/transaction.rs:719-728 | the reset yields the settled state with the same shape |
| `MetalTransaction.CalculateDrmState` | src/backends/metal/transaction.rs:234-760 | (corrected) on success the result is settled and has the same shape as the transaction; only a lit connector can make it fail |
| `MetalTransaction.CommitChange` | src/backends/metal/transaction.rs:917-929 | success exactly when the change is empty, or the commit without modeset or the retry with `ALLOW_MODESET` succeeds; otherwise `AtomicCommitFailed` with the retry's errno |
| `MetalTransaction.CommitFlags` | src/backends/metal/transaction.rs:917-929 | nothing is committed for an empty change; the modeset flag is used only in the second commit, which happens only after the first failed |
| `MetalTransaction.SettledIsApplyReady` | src/backends/metal/transaction.rs:930-1006 | the settled state meets everything `apply` unwraps |
| `MetalTransaction.LastAssigned` | src/backends/metal/transaction.rs:944-956 | the last plane in id order of the type assigned to the CRTC, or `NONE` exactly when there is none |
| `MetalTransaction.LastAssignedUnique` | src/backends/metal/transaction.rs:944-956 | when only one plane of a type is assigned to a CRTC, that plane is the one recorded |
| `MetalTransaction.ConnectedCrtcs` | src/backends/metal/transaction.rs:932-942 | exactly the CRTCs with an assigned connector get an empty entry |
| `MetalTransaction.AssignPlanes` | src/backends/metal/transaction.rs:944-956 | each entry's slots hold the last plane of that type assigned to the CRTC |
| `MetalTransaction.PlanesByCrtc` | src/backends/metal/transaction.rs:931-956 | the map has exactly the CRTCs with a connector, each with the last primary and cursor plane assigned to it |
| `MetalTransaction.CrtcConnectors` | src/backends/metal/transaction.rs:932-942 | every CRTC links to the connector assigned to it |
| `MetalTransaction.LinkConnector` | src/backends/metal/transaction.rs:958-1006 | an unchanged connector keeps everything; a changed one without CRTC loses links and buffers; with a CRTC it links to it and its planes, takes their buffers and framebuffers, and a missing plane clears the corresponding link, buffers and framebuffer |
| `MetalTransaction.LinkConnectors` | src/backends/metal/transaction.rs:958-1006 | every connector of the transaction is linked as `LinkConnector` says and other links are kept |
| `MetalTransaction.Apply` | src/backends/metal/transaction.rs:913-1006 | fails exactly when the commit fails, with its error; otherwise CRTCs link to their connectors and every connector is linked as `LinkConnector` says over the planes map |
| `MetalTransaction.AppliedConnectorShowsPrimary` | src/backends/metal/transaction.rs:958-1006 | after applying the settled state a changed lit connector links to its CRTC and to the primary plane attached to it, and takes that plane's buffers and framebuffer |
| `Drm.GemHandles.GemHandle` | src/video/drm.rs:436-453 | an import error is reported with nothing changed; a known handle with a live object returns that object; otherwise a new object is made and remembered; afterwards the handle maps to the returned object |
| `MetalVideo.CreateEncoder` | src/backends/metal/video.rs:249-265 | the encoder's possible CRTCs are exactly the CRTCs whose bit `1 << idx` is set in its `possible_crtcs` mask |
| `MetalVideo.CreateCrtc` | src/backends/metal/video.rs:267-281 | a CRTC can use exactly the planes whose `possible_crtcs` mask contains the CRTC's bit |
| `MetalVideo.ContainsBit` | src/backends/metal/video.rs:256-258 | a one-bit mask is contained in `possible_crtcs` exactly when that bit of the mask is set |
| `MetalVideo.FirstFreeCrtc` | src/backends/metal/video.rs:849-856 | the CRTC chosen is one of the connector's CRTCs that drives nothing, and there is none exactly when every one of them drives a connector |
| `MetalVideo.FirstPrimaryCandidate` | src/backends/metal/video.rs:895-906 | the plane chosen is a possible plane of the CRTC that is primary, unattached and can show XRGB8888, and there is none exactly when no possible plane is such a plane |
| `MetalVideo.FirstUnusedPrimary` | src/backends/metal/video.rs:766-772 | the plane chosen is a primary possible plane not used by an earlier connector, and there is none exactly when every primary possible plane is used |
| `MetalVideo.MetalDrmDevice.ResetConnectorsAndCrtcs` | src/backends/metal/video.rs:655-674 | every connector loses its CRTC, `CRTC_ID` and primary plane, every CRTC drives nothing and is inactive without a mode, and the planes are unchanged |
| `MetalVideo.ResetIsLinked` | src/backends/metal/video.rs:655-674 | after the reset every reference still resolves, nothing is linked and no CRTC is active, so the link invariant holds |
| `MetalVideo.AssignCrtc` | src/backends/metal/video.rs:841-876 | a disconnected connector is left alone; a connected one fails with `NoCrtcForConnector` exactly when all its CRTCs drive something, and fails otherwise exactly when it has no mode or the blob cannot be made; a failure changes nothing; on success the connector links to the first free CRTC, which drives it, is active and shows the new blob, and nothing else changes |
| `MetalVideo.MetalDrmDevice.AssignConnectorCrtc` | src/backends/metal/video.rs:841-876 | the result and the new device state are those of `AssignCrtc` |
| `MetalVideo.MetalDrmDevice.FindFreeCrtc` | src/backends/metal/video.rs:849-856 | the loop finds the CRTC `FirstFreeCrtc` names |
| `MetalVideo.AssignCrtcKeepsLinks` | src/backends/metal/video.rs:841-876 | assigning a CRTC to a connector without one keeps every reference resolving and the link invariant: connector and CRTC link each other, `CRTC_ID` agrees, primary planes are attached to their connector's CRTC |
| `MetalVideo.AssignPlane` | src/backends/metal/video.rs:878-949 | a connector without CRTC or mode is left alone and a failure changes nothing; without a primary plane it fails with `NoPrimaryPlaneForConnector` exactly when its CRTC has no usable primary plane; on success it keeps its primary plane or takes a candidate plane of its CRTC, is active with buffers, and that plane is attached to its CRTC covering the mode, with the 16.16 source width |
| `MetalVideo.MetalDrmDevice.AssignConnectorPlane` | src/backends/metal/video.rs:878-949 | the result and the new device state are those of `AssignPlane` |
| `MetalVideo.MetalDrmDevice.FindPrimaryCandidate` | src/backends/metal/video.rs:895-906 | the loop finds the plane `FirstPrimaryCandidate` names |
| `MetalVideo.AssignPlaneFrame` | src/backends/metal/video.rs:878-949 | assigning a plane changes only the connector's buffers, primary plane and `active`, and the plane it shows |
| `MetalVideo.AssignPlaneKeepsLinks` | src/backends/metal/video.rs:878-949 | assigning a plane keeps every reference resolving and the link invariant, so no two connectors share a primary plane |
| `MetalVideo.PrimariesExclusive` | src/backends/metal/video.rs:596-639 | under the link invariant no two connectors have the same primary plane |
| `MetalVideo.CrtcsExclusive` | src/backends/metal/video.rs:841-876 | under the link invariant no two connectors are linked to the same CRTC |
| `MetalVideo.ReusePrimaries` | src/backends/metal/video.rs:596-639 | every connector becomes inactive; when reuse is impossible nothing is preserved and no connector keeps a primary plane; a plane a connector takes back is a primary plane shown on the CRTC its `CRTC_ID` names, can show XRGB8888, and that CRTC is linked |
| `MetalVideo.MetalDrmDevice.ReusePrimaryPlanes` | src/backends/metal/video.rs:596-639 | the planes preserved and the new device state are those of `ReusePrimaries` |
| `MetalVideo.MetalDrmDevice.DeactivateConnectors` | src/backends/metal/video.rs:598-604 | every connector is inactive without a primary plane, and every linked CRTC gets an empty plane list |
| `MetalVideo.MetalDrmDevice.CollectPrimaries` | src/backends/metal/video.rs:605-611 | each linked CRTC's list holds exactly the primary planes shown on it, in plane order |
| `MetalVideo.MetalDrmDevice.CheckReuse` | src/backends/metal/video.rs:612-624 | the check loop says reuse is possible exactly when every list has at most one plane and that plane can show XRGB8888 |
| `MetalVideo.MetalDrmDevice.TakeBack` | src/backends/metal/video.rs:630-638 | the connectors and preserved planes are those of the recursive account of the loop, `TakeBackOver` |
| `MetalVideo.TakeBackMeans` | src/backends/metal/video.rs:630-638 | the loop gives each listed connector the first plane listed for its `CRTC_ID` and collects exactly those planes |
| `MetalVideo.ReuseOkMeans` | src/backends/metal/video.rs:612-624 | reuse is possible exactly when no linked CRTC shows two different primary planes or one that cannot show XRGB8888 |
| `MetalVideo.ReusePreserves` | src/backends/metal/video.rs:630-639 | the preserved planes are exactly the primary planes the connectors took back |
| `MetalVideo.ReuseTakesBack` | src/backends/metal/video.rs:630-639 | when reuse is possible, a connector whose CRTC is linked takes a plane back exactly when a primary plane is shown on that CRTC |
| `MetalVideo.ReuseFrame` | src/backends/metal/video.rs:596-639 | reuse changes only the connectors' `active` and primary plane |
| `MetalVideo.ReuseKeepsLinks` | src/backends/metal/video.rs:596-639 | with agreeing links, reuse leaves the link invariant holding and every primary plane preserved |
| `MetalVideo.ClearPlanes` | src/backends/metal/video.rs:641-653 | a preserved plane is unchanged; any other plane is detached; nothing else about a plane changes |
| `MetalVideo.MetalDrmDevice.ResetPlanes` | src/backends/metal/video.rs:641-653 | the planes after the loop are `ClearPlanes` of the old planes |
| `MetalVideo.ClearKeepsLinks` | src/backends/metal/video.rs:641-653 | detaching the planes no connector shows keeps the link invariant |
| `MetalVideo.WithPrimary` | src/backends/metal/video.rs:692-699 | the ids kept are exactly the ids whose connector has (or has not) a primary plane |
| `MetalVideo.PrimaryFirstPermutes` | src/backends/metal/video.rs:692-699 | the sorted connector list is a permutation of the connectors |
| `MetalVideo.PrimaryFirstSorted` | src/backends/metal/video.rs:692-699 | in the sorted list every connector with a primary plane comes before every connector without one |
| `MetalVideo.DropInactive` | src/backends/metal/video.rs:706-710 | an inactive connector loses its primary plane and nothing else changes |
| `MetalVideo.MetalDrmDevice.DropInactivePrimaries` | src/backends/metal/video.rs:706-710 | the connectors after the loop are `DropInactive` of the old connectors |
| `MetalVideo.DropKeepsLinks` | src/backends/metal/video.rs:706-710 | dropping the primary planes of inactive connectors keeps the link invariant |
| `MetalVideo.ScanConnector` | src/backends/metal/video.rs:723-777 | one pass either leaves the device as it was or only links the connected connector and the CRTC its `CRTC_ID` names |
| `MetalVideo.ScanConnectorOk` | src/backends/metal/video.rs:723-777 | a pass succeeds exactly when the connector is usable (disconnected without CRTC, or connected to an active CRTC whose current mode equals its own) and, when connected, its CRTC has a primary plane no earlier connector took, which becomes its pick |
| `MetalVideo.MetalDrmDevice.CheckConnector` | src/backends/metal/video.rs:723-777 | the outcome, device state, used CRTCs and used planes are those of `ScanConnector` |
| `MetalVideo.MetalDrmDevice.ScanConnectors` | src/backends/metal/video.rs:723-777 | the connector loop's outcome and state are those of `ScanFrom`, which stops at the first unusable connector |
| `MetalVideo.ScanConfig` | src/backends/metal/video.rs:723-777 | the connector loop changes only the links between connectors and CRTCs |
| `MetalVideo.ScanKeeps` | src/backends/metal/video.rs:723-777 | the connector loop keeps earlier picks and never picks one plane for two connectors |
| `MetalVideo.ScanSound` | src/backends/metal/video.rs:723-777 | when the connector loop passes, every connector was usable and got a primary plane of its CRTC |
| `MetalVideo.ScanCrtcs` | src/backends/metal/video.rs:723-777 | when the connector loop passes, the used CRTCs are exactly those named by connected connectors |
| `MetalVideo.SwitchOffUnused` | src/backends/metal/video.rs:781-789 | a CRTC no connector uses becomes inactive, a used one keeps its state, nothing else changes |
| `MetalVideo.SwitchOffFlags` | src/backends/metal/video.rs:781-789 | the flags are `ALLOW_MODESET` exactly when some unused CRTC was active, and 0 otherwise |
| `MetalVideo.MetalDrmDevice.SwitchOffCrtcs` | src/backends/metal/video.rs:781-789 | the CRTCs and flags after the loop are `SwitchOffUnused` and `SwitchOffFlags` of the old CRTCs |
| `MetalVideo.SwitchOffOverAny` | src/backends/metal/video.rs:781-789 | the loop switches some CRTC off exactly when a CRTC of the loop was active and unused |
| `MetalVideo.CanUse` | src/backends/metal/video.rs:719-796 | the check keeps every reference resolving, the objects of the device and the planes |
| `MetalVideo.MetalDrmDevice.CanUseCurrentDrmMode` | src/backends/metal/video.rs:719-796 | the verdict and new state are those of `CanUse`: the connector loop, then the CRTC loop and the test commit |
| `MetalVideo.CanUseSound` | src/backends/metal/video.rs:719-796 | when the check passes, every connector is usable with a primary plane of its own, no two share a plane, and only CRTCs of connected connectors stay active |
| `MetalVideo.CanUseLinks` | src/backends/metal/video.rs:719-796 | on a fresh device where no two connectors name the same CRTC, a passing check leaves connector and CRTC links agreeing with `CRTC_ID` and no primary plane chosen |
| `MetalVideo.InitFlags` | src/backends/metal/video.rs:677-681 | the commit flags are 0 exactly when the current configuration is kept |
| `MetalVideo.KeepOrReset` | src/backends/metal/video.rs:679-688 | the configuration is kept exactly when `CanUse` passes; references still resolve and the planes are untouched |
| `MetalVideo.MetalDrmDevice.KeepOrResetConfig` | src/backends/metal/video.rs:679-688 | the decision and the new state are those of `KeepOrReset` |
| `MetalVideo.SetUpPlanes` | src/backends/metal/video.rs:689-710 | setting up the primary planes keeps every reference resolving, the CRTCs and the objects of the device |
| `MetalVideo.MetalDrmDevice.SetUpPrimaryPlanes` | src/backends/metal/video.rs:689-710 | the new state is that of `SetUpPlanes`: reuse, release, assignment in primary-first order, then the drop of inactive primaries |
| `MetalVideo.Init` | src/backends/metal/video.rs:676-717 | start-up succeeds exactly when the final commit succeeds with the flags `InitFlags` of the check's verdict, and every reference still resolves |
| `MetalVideo.MetalDrmDevice.InitDrmDevice` | src/backends/metal/video.rs:676-717 | the result and new state are those of `Init`, and the device stays well formed |
| `MetalVideo.InitActive` | src/backends/metal/video.rs:676-717 | after start-up a connector is active exactly when it has a primary plane, and an active one has buffers and a CRTC |
| `MetalVideo.InitLinked` | src/backends/metal/video.rs:676-717 | after start-up the link invariant holds (given, when the configuration is kept, a fresh device with distinct `CRTC_ID`s) |
| `MetalVideo.MetalDrmDevice.PresentConnector` | src/backends/metal/video.rs:965-998 | the flip and the new connector are those of `Present` |
| `MetalVideo.Presents` | src/backends/metal/video.rs:965-998 | `n` presents give `n` flips |
| `MetalVideo.PresentsAlternate` | src/backends/metal/video.rs:965-977 | the i-th present flips the primary plane to `fb0` or `fb1` by the parity of `next_buffer + i` |
| `MetalVideo.PresentsNeverRepeat` | src/backends/metal/video.rs:965-977 | with two distinct buffers, consecutive presents never show the same framebuffer |
| `MetalVideo.MetalDrmDevice.HandleFlip` | src/backends/metal/video.rs:577-594 | the flip and new state are those of `Flip` |
| `MetalVideo.FlipPresentsOwner` | src/backends/metal/video.rs:577-594 | under the link invariant a flip event on a connector's CRTC presents exactly that connector, and an unknown CRTC changes nothing |
| `GfxApi.FromSyncFile` | src/gfx_api.rs:208-215 | no sync file means `Unnecessary`; a sync file means waiting on exactly that file |
| `GfxApi.FromSyncFileRoundTrip` | src/gfx_api.rs:208-215 | the waited-on sync file of the result is the argument, and the result is never `None` or `Implicit` |
| `GfxApi.NeedsRenderUsage` | src/gfx_api.rs:590-592 | true iff some write modifier needs render usage |
| `GfxApi.CrossIntersect` | src/gfx_api.rs:611-630 | the read modifiers are those this device reads and the other writes; the write entries are those this device writes whose modifier the other reads |
| `GfxApi.CrossIntersectKeepsOrder` | src/gfx_api.rs:611-630 | both halves of the intersection are subsequences of this device's sets, so order is kept and no modifier appears twice |
| `GfxApi.CrossIntersectFormats` | src/gfx_api.rs:632-648 | a format is in the result iff both tables hold it and its intersection is not empty, and it maps to that intersection |
| `GfxApi.CrossIntersectFormatsAgree` | src/gfx_api.rs:632-648 | every modifier read locally in the result is written remotely, and every one written locally is read remotely |
| `GfxApi.LogicalSize` | src/gfx_api.rs:755-757 | width and height are swapped exactly for the transforms that swap axes |
| `GfxApi.LogicalSizeInvolutive` | src/gfx_api.rs:755-757 | taking the logical size twice gives the physical size |
| `GfxApi.ResvUserIds.Default` | src/gfx_api.rs:243-248 | the id is the counter's value, the counter goes up by one, and the id differs from every id issued before |
| `VulkanImage.Acquire` | src/gfx_apis/vulkan/image.rs:84-92 | unnecessary iff the image is held by that family, possible iff it was released to it, impossible otherwise |
| `VulkanImage.AcquireIsStable` | src/gfx_apis/vulkan/image.rs:84-92 | after an acquisition the same family needs no transfer and the other family cannot take the image |
| `VulkanImage.ImportDmabuf` | src/gfx_apis/vulkan/image.rs:151-201 | each error (unknown format, unknown modifier, non-positive size, no usable limit, too large, wrong plane count, disjoint without support) occurs iff its condition holds and no earlier check failed; otherwise the template carries the buffer's size and the modifier's limits |
| `VulkanImage.ImportDmabufErrors` | src/gfx_apis/vulkan/image.rs:151-201 | an import succeeds iff format and modifier are known, the size is positive, a render or texture limit fits, the plane count matches and disjointness is supported |
| `VulkanImage.CreateImage` | src/gfx_apis/vulkan/image.rs:267-450 | a missing limit for the chosen use gives `ModifierUseNotSupported`, a size beyond it `ImageTooLarge`; a new image has undefined layout, defined contents and is held by the graphics queue |
| `VulkanImage.ImportedCanBeCreated` | src/gfx_apis/vulkan/image.rs:151-276 | an imported template can be created as a framebuffer or as a texture, whichever limit admitted it, when the driver calls succeed |
| `VulkanImage.AlphaSwizzleSamples` | src/gfx_apis/vulkan/image.rs:211-222 | a sampled view of a format without alpha reads alpha one whatever the texel stores; every other view reads the stored alpha |
| `VulkanImage.CompatibleWith` | src/gfx_apis/vulkan/image.rs:659-670 | for images within `i32` range, compatible iff format, width, height and stride are equal |
| `VulkanImage.VulkanImage.Cancel` | src/gfx_apis/vulkan/image.rs:677-686 | the callback is dropped iff its id is the cancelled one; nothing else changes |
| `VulkanImage.DropPendingShmUpload` | src/gfx_api.rs:655-659 | dropping a pending upload cancels its own transfer only |
| `VulkanBoAllocator.ValidateUsageAsWritten` | src/gfx_apis/vulkan/bo_allocator.rs:686-691 | the usage is refused iff it has every flag outside `WRITE` and `RENDERING` |
| `VulkanBoAllocator.ValidateUsageAsWrittenAcceptsLinear` | src/gfx_apis/vulkan/bo_allocator.rs:686-691 | the usage of `WRITE` with `LINEAR` passes the check as written but not the corrected one |
| `VulkanBoAllocator.ValidateUsage` | src/gfx_apis/vulkan/bo_allocator.rs:686-691 | the usage is accepted iff it has no flag outside `WRITE` and `RENDERING` |
| `VulkanBoAllocator.MapUsage` | src/gfx_apis/vulkan/bo_allocator.rs:693-699 | the image is always a transfer source and destination, and a colour attachment iff the buffer is rendered to |
| `VulkanBoAllocator.EffectiveLimits` | src/gfx_apis/vulkan/bo_allocator.rs:721-735 | no limit without transfer limits, or without render limits for a rendered buffer; otherwise the maximum width and height are the transfer maxima, or for a rendered buffer the smaller of the transfer and render maxima, and the limit is exportable exactly when the transfer limit is and, when rendering, the render limit is too |
| `VulkanBoAllocator.ValidateModifier` | src/gfx_apis/vulkan/bo_allocator.rs:701-740 | valid iff the modifier is known, disjointness is supported when needed, a given plane count matches, the effective limits exist, are exportable and fit the size |
| `VulkanBoAllocator.ValidModifierFitsEveryLimit` | src/gfx_apis/vulkan/bo_allocator.rs:701-740 | a modifier is valid exactly when the format has it with the requested disjointness and plane count and the size fits its exportable transfer limits and, for a rendered buffer, its exportable render limits |
| `VulkanBoAllocator.ValidModifiers` | src/gfx_apis/vulkan/bo_allocator.rs:124-129 | the valid modifiers of the request, in request order |
| `VulkanBoAllocator.CreateBo` | src/gfx_apis/vulkan/bo_allocator.rs:104-132 | (corrected) refused usage, unknown format, negative size and an empty valid list each give their error in check order; otherwise the list of valid requested modifiers, in order |
| `VulkanBoAllocator.ImportDmabuf` | src/gfx_apis/vulkan/bo_allocator.rs:276-303 | (corrected) refused usage, unknown format, negative size and an invalid modifier for the buffer's plane count and disjointness each give their error in check order |
| `VulkanBoAllocator.Map` | src/gfx_apis/vulkan/bo_allocator.rs:454-500 | a format without shm layout gives `ShmNotSupported`; otherwise stride is width times bytes per pixel and size height times stride, exact when no `u32` overflow occurs |
| `VulkanDevice.FindMemoryType` | src/gfx_apis/vulkan/device.rs:98-110 | the smallest memory type allowed by the bit mask whose properties contain the wanted flags, or none if there is none |
| `VulkanDevice.DeviceState.Observe` | src/gfx_apis/vulkan/device.rs:112-119 | the device is lost afterwards iff it was before or the result is `ERROR_DEVICE_LOST` |
| `VulkanDevice.FirstGraphics` | src/gfx_apis/vulkan/device.rs:257-264 | the first family with graphics support, none iff no family has it |
| `VulkanDevice.LastCandidate` | src/gfx_apis/vulkan/device.rs:268-288 | the last family of the given kind, other than the graphics one, with non-zero granularity |
| `VulkanDevice.FindTransferQueue` | src/gfx_apis/vulkan/device.rs:265-295 | the loop's choice equals `TransferChoice`: the last transfer-only candidate, else the last compute-only, else the last other graphics family, else the graphics family if it has two queues |
| `VulkanDevice.TransferChoiceMeans` | src/gfx_apis/vulkan/device.rs:265-295 | a chosen other family has non-zero granularity and no family of a preferred kind exists; the graphics family is chosen only with a second queue and no candidate; none only when it has a single queue |
| `VulkanDevice.FindQueues` | src/gfx_apis/vulkan/device.rs:232-321 | `NoGraphicsQueue` iff no family has graphics; otherwise the first graphics family, the transfer choice and its masks |
| `VulkanDevice.TransferQueueIndex` | src/gfx_apis/vulkan/device.rs:535-541 | the transfer queue is queue 1 when it shares the graphics family, else queue 0, and that queue exists |
| `VulkanDevice.GranularityMasks` | src/gfx_apis/vulkan/device.rs:296-304 | zero without transfer queue; otherwise one less than each non-zero granularity |
| `VulkanDevice.NextPowerOfTwo` | src/gfx_apis/vulkan/device.rs:510-524 | the smallest power of two at least the argument, 1 for 0 |
| `VulkanDevice.OffsetMask` | src/gfx_apis/vulkan/device.rs:510-524 | one less than the rounded-up alignment, so mask plus one is a power of two not below the alignment |
| `VulkanDevice.UploadsStartedMeans` | src/ifs/wl_surface/commit_timeline.rs:601-686 | at most one upload per shm buffer; a buffer imported as a udmabuf texture on a device with fast RAM access, or whose texture has no damage (`async_transfer` then starts nothing), starts none; on a discrete, virtual or other GPU every shm buffer is uploaded exactly when each has damage; no upload is started exactly when every buffer is imported or undamaged |
| `VulkanRenderer.ConstrainToFb` | src/gfx_apis/vulkan/renderer.rs:2109-2123 | `None` exactly when the rectangle ends at or before the left or top edge or starts past the right or bottom edge; otherwise the clamped corners, and a `None` rectangle shares no pixel with the framebuffer |
| `VulkanRenderer.CachedCommandBuffers.Allocate` | src/gfx_apis/vulkan/renderer.rs:122-133 | pops the top of the stack when there is one; otherwise counts a new buffer and asks the pool; the buffer returned was not handed out before and is handed out now |
| `VulkanRenderer.CachedCommandBuffers.Push` | src/gfx_apis/vulkan/renderer.rs:2026-2028 | a handed-out buffer goes back on top of the stack, and the cache stays free of duplicates |
| `VulkanRenderer.CollectedMeans` | src/gfx_apis/vulkan/renderer.rs:890-920 | each sampled image is collected at most once, exactly those the graphics queue can acquire are collected, the queue transfers are those released to it, and the dmabuf samples are the imports |
| `VulkanRenderer.Renderer.AllocatePoint` | src/gfx_apis/vulkan/renderer.rs:536-538 | the new point is one above the last one, so it is above every point handed out before |
| `VulkanRenderer.Renderer.CheckDefunct` | src/gfx_apis/vulkan/renderer.rs:1946-1951 | an error, `Defunct`, exactly when the renderer is defunct |
| `VulkanRenderer.Renderer.OnDrop` | src/gfx_apis/vulkan/renderer.rs:1931-1944 | the renderer is defunct and has no pending frames or submissions left |
| `VulkanRenderer.Renderer.CreatePendingFrame` | src/gfx_apis/vulkan/renderer.rs:1648-1680 | the frame's buffer is kept under a fresh point that no pending frame had |
| `VulkanRenderer.Renderer.AwaitRelease` | src/gfx_apis/vulkan/renderer.rs:2008-2035 | once released, the frame's command buffer goes back on the stack and the frame is no longer pending |
| `VulkanRenderer.Renderer.CollectMemory` | src/gfx_apis/vulkan/renderer.rs:890-920 | one fresh execution point marks every sampled image; the textures, queue transfers and dmabuf samples are those `CollectedMeans` characterises |
| `VulkanRenderer.Renderer.TryExecute` | src/gfx_apis/vulkan/renderer.rs:1865-1919 | refused with `Defunct` when defunct; succeeds exactly when a command buffer is available and the op conversion and GPU calls succeed; a failure adds no frame; once past conversion every sampled image carries the execution point last_point + 1; on success the queue transfers are those of the sampled images, the targets hold defined contents, and the one new pending frame holds the allocated command buffer (the top of the stack, else the next new one) under point last_point + 2 |
| `VulkanRenderer.Renderer.RecordFrame` | src/gfx_apis/vulkan/renderer.rs:1883-1918 | after allocation: a failed conversion changes no point; otherwise every sampled image is marked with the fresh execution point; on success the frame is kept with its command buffer under the next point and nothing else is added |
| `VulkanRenderer.StoreLayouts` | src/gfx_apis/vulkan/renderer.rs:1631-1646 | the framebuffer is defined and acquired by the graphics queue, the blend buffer is defined, and every queue-transfer image is acquired by the graphics queue |
| `VulkanRenderer.DroppedRendererRefuses` | src/gfx_apis/vulkan/renderer.rs:1931-1951 | after `on_drop` every execution is refused with `Defunct` and no frame is pending |
| `VulkanRenderer.TagRegions` | src/gfx_apis/vulkan/renderer.rs:1746-1777 | the loop over the operations in reverse yields the tagged rectangles and the opaque rectangles of the reference functions |
| `VulkanRenderer.TagMonotone` | src/gfx_apis/vulkan/renderer.rs:1768-1773 | tags never decrease from the top of the stack to the bottom |
| `VulkanRenderer.TagZeroFrom` | src/gfx_apis/vulkan/renderer.rs:1768-1773 | the tag is zero exactly when there is a blend buffer and no painting operation at or above that point is opaque |
| `VulkanRenderer.TagMeaning` | src/gfx_apis/vulkan/renderer.rs:1768-1773 | a painting operation's tag is odd exactly when it is opaque or there is no blend buffer, and zero exactly when it and everything painted above it are translucent |
| `VulkanRenderer.AssignPasses` | src/gfx_apis/vulkan/renderer.rs:1791-1807 | the loop yields the blend-buffer regions (tag 0), the framebuffer regions (other tags), each clamped to the framebuffer, and the tag-0 rectangles for the clear |
| `VulkanRenderer.BlendPassEmpty` | src/gfx_apis/vulkan/renderer.rs:1791-1807 | the blend-buffer pass paints nothing exactly when no tag-0 rectangle reaches into the framebuffer, and every painted region lies inside it |
| `VulkanRenderer.TaggedFromMembers` | src/gfx_apis/vulkan/renderer.rs:1746-1777 | the tagged rectangles are exactly those of the painting operations, each with its own tag |
| `VulkanRenderer.BlendBufferKept` | src/gfx_apis/vulkan/renderer.rs:1732-1864 | after create_regions the blend buffer is kept exactly when there is one and some translucent operation, with only translucent operations painted above it, reaches into the framebuffer |
| `VulkanRenderer.BlendBufferKeptForOptions` | src/gfx_apis/vulkan/renderer.rs:1746-1864 | the same over the options of the frame: kept exactly when some fill with a translucent colour or copy with alpha below one or an undeclared alpha texture, with only such options above it, reaches into the framebuffer |
| `VulkanRenderer.AlphaLessTextureIsOpaque` | src/gfx_apis/vulkan/renderer.rs:1751-1763 | a copy of a texture whose format has no alpha counts as opaque, consistent with its view reading alpha one |
| `VulkanRenderer.ChooseClear` | src/gfx_apis/vulkan/renderer.rs:1039-1063 | no clear without a clear colour or clear rectangles; the load-op clear exactly when the single clear rectangle is the whole target; explicit clear rectangles otherwise |
| `VulkanTransfer.AlignDown` | src/gfx_apis/vulkan/transfer.rs:168-169 | the largest multiple of the granularity not above the coordinate |
| `VulkanTransfer.AlignUp` | src/gfx_apis/vulkan/transfer.rs:170-171 | the smallest multiple of the granularity not below the coordinate |
| `VulkanTransfer.AlignedDamageMeans` | src/gfx_apis/vulkan/transfer.rs:164-183 | the widened damage rectangle lies inside the image, starts on the granularity grid, ends on it or at the image edge, and covers every damaged pixel inside the image; `None` only when no damaged pixel lies inside |
| `VulkanTransfer.CopyOf` | src/gfx_apis/vulkan/transfer.rs:141-160 | the copy has the rectangle's position and size, at the row-major buffer offset of its first pixel |
| `VulkanTransfer.CopyFits` | src/gfx_apis/vulkan/transfer.rs:141-160 | the bytes of a copy inside the image lie within the image's `stride * height` bytes and neither offset nor length wraps a u32 |
| `VulkanTransfer.RegionsOfMeans` | src/gfx_apis/vulkan/transfer.rs:164-184 | every recorded copy lies inside the image, and every damaged pixel inside the image is covered by some copy |
| `VulkanTransfer.BuildRegions` | src/gfx_apis/vulkan/transfer.rs:139-184 | the loop records the copies `RegionsOf` defines, one per surviving rectangle |
| `VulkanTransfer.IoRange` | src/gfx_apis/vulkan/transfer.rs:401-408 | the range covers every copy's bytes, never starts past the client memory, and each end is a copy boundary unless there are no copies |
| `VulkanTransfer.IoRangeInImage` | src/gfx_apis/vulkan/transfer.rs:401-408 | the range of copies inside the image ends within the image's buffer |
| `VulkanTransfer.Delivery` | src/gfx_apis/vulkan/transfer.rs:58-60 | a callback that is present receives the result once; an absent one receives nothing |
| `VulkanTransfer.Complete` | src/gfx_apis/vulkan/transfer.rs:54-61 | the image is free, the staging shell is released and forgotten with the client memory, the callback runs once; without a shell it panics |
| `VulkanTransfer.CompleteTwice` | src/gfx_apis/vulkan/transfer.rs:54-61 | a second completion panics on the missing shell and the callback has run exactly once, with the first result |
| `VulkanTransfer.Refusal` | src/gfx_apis/vulkan/transfer.rs:105-134 | each refusal of `try_async_transfer` holds exactly under its condition, in the order checked, and none holds exactly when the transfer can start |
| `VulkanTransfer.AcceptTransferAsWritten` | src/gfx_apis/vulkan/transfer.rs:105-136 | as written: a refused transfer reports its refusal, but the refusal for undefined contents leaves the image and shell marked busy |
| `VulkanTransfer.AcceptTransfer` | src/gfx_apis/vulkan/transfer.rs:105-136 | a refused transfer reports its refusal and changes nothing; an accepted one marks the image and shell |
| `VulkanTransfer.UndefinedDownloadWedgesImage` | src/gfx_apis/vulkan/transfer.rs:126-134 | as written, after a download of undefined contents is refused, the upload that would define them is refused as busy |
| `VulkanTransfer.UndefinedDownloadLeavesImageFree` | src/gfx_apis/vulkan/transfer.rs:126-134 | with the check first, the same upload is accepted |
| `VulkanTransfer.AsyncReleaseFromGfxQueue` | src/gfx_apis/vulkan/transfer.rs:212-320 | refused when defunct; without a distinct transfer family the image changes hands at once unless a graphics job still uses it; with one a release barrier is submitted and awaited under a fresh point; a failed submission reports `DeviceCall` |
| `VulkanTransfer.AsyncDownloadCopyImageToBuffer` | src/gfx_apis/vulkan/transfer.rs:474-500 | nothing happens while the transfer queue cannot acquire the image; otherwise the copy is submitted under a fresh point, or fails with `Defunct` or `DeviceCall` |
| `VulkanTransfer.AsyncUploadCopyBufferToImage` | src/gfx_apis/vulkan/transfer.rs:441-472 | the copy into the image is submitted exactly when the host copy is done, the transfer queue can acquire the image and the calls succeed; it panics on a missing staging buffer |
| `VulkanTransfer.CopyRects` | src/gfx_apis/vulkan/transfer.rs:387-396 | one rectangle per copy, at the copy's position and of its size |
| `VulkanTransfer.InitiateHostCopy` | src/gfx_apis/vulkan/transfer.rs:342-439 | refused when defunct or when a download's invalidation fails; otherwise a CPU job under a fresh point, copying the copies' rectangles for mapped memory, or reading or writing one byte range covering every copy within client memory for a file |
| `VulkanTransfer.ReleasedToTransfer` | src/gfx_apis/vulkan/transfer.rs:598-606 | the release's command buffer is back in the graphics cache, the waiter is no longer pending and the image is released to the transfer queue |
| `VulkanTransfer.CompleteOnError` | src/gfx_apis/vulkan/transfer.rs:615-617 | an error completes the transfer; success changes nothing |
| `VulkanTransfer.ContinueOnTransferQueue` | src/gfx_apis/vulkan/transfer.rs:607-618 | an upload submits its buffer-to-image copy once the host copy is done; a download submits its image-to-buffer copy when the staging memory exists |
| `VulkanTransfer.AwaitGfxQueueRelease` | src/gfx_apis/vulkan/transfer.rs:578-619 | the image moves to the transfer queue and the transfer continues there; an error completes it; no panic while the staging memory exists |
| `VulkanTransfer.ReleasedToGfx` | src/gfx_apis/vulkan/transfer.rs:637-646 | the command buffer is back in the transfer cache (the graphics cache without one), the copy is no longer pending, and the image is released to the graphics queue |
| `VulkanTransfer.FinishOnGfxQueue` | src/gfx_apis/vulkan/transfer.rs:651-670 | an upload completes with success; a download starts the host copy out of the staging buffer, and an error completes it |
| `VulkanTransfer.AwaitAsyncTransferReleaseToGfx` | src/gfx_apis/vulkan/transfer.rs:621-672 | the two halves together: the buffer is returned, the image released to the graphics queue, and the transfer finished |
| `VulkanTransfer.AfterHostCopy` | src/gfx_apis/vulkan/transfer.rs:566-575 | the data is marked copied; a download completes; an upload submits its copy once the image belongs to the transfer queue, and an error completes it |
| `VulkanTransfer.CompleteAsyncHostCopyAsWritten` | src/gfx_apis/vulkan/transfer.rs:550-576 | as written: a failed host copy is reported and the data is still marked copied, so the step that follows runs as if the copy succeeded |
| `VulkanTransfer.CompleteAsyncHostCopy` | src/gfx_apis/vulkan/transfer.rs:550-576 | the job is no longer pending; a failed copy completes the transfer with `AsyncCopyToStaging` and nothing else; a successful one continues as `AfterHostCopy` states |
| `VulkanTransfer.HostCopyFailurePanicsAsWritten` | src/gfx_apis/vulkan/transfer.rs:563-572 | as written, a failed host copy of a download panics after reporting the failure |
| `VulkanTransfer.HostCopyFailureReportedOnce` | src/gfx_apis/vulkan/transfer.rs:563-572 | with the return, the failure reaches the callback exactly once and nothing panics |
| `VulkanTransfer.WholeImageCopy` | src/gfx_apis/vulkan/transfer.rs:131-136 | the whole-image damage of an undefined upload becomes exactly one copy of the whole image |
| `VulkanTransfer.PrepareTransfer` | src/gfx_apis/vulkan/transfer.rs:105-184 | (corrected) refused transfers change nothing; accepted ones mark the image and shell and record the copies of the damage, all of the image for an undefined upload |
| `VulkanTransfer.StartTransfer` | src/gfx_apis/vulkan/transfer.rs:186-209 | the image is released from the graphics queue; then the upload's host copy or the download's copy starts when the staging memory exists, or its allocation is requested |
| `VulkanTransfer.TryAsyncTransfer` | src/gfx_apis/vulkan/transfer.rs:96-210 | (corrected) a refused transfer returns its refusal and changes nothing; an accepted one marks, records the copies and starts; later failures keep the marks |
| `VulkanTransfer.AsyncTransfer` | src/gfx_apis/vulkan/transfer.rs:71-94 | (corrected) empty damage transfers nothing; a started transfer registers its callback under a fresh point |
| `VulkanTransfer.RegisterCallback` | src/gfx_apis/vulkan/transfer.rs:84-88 | the callback is stored under a fresh point, which identifies the pending transfer |
| `VulkanTransfer.AfterAllocation` | src/gfx_apis/vulkan/transfer.rs:322-340 | with the staging memory allocated, an upload starts its host copy and a download its copy; a failed allocation or start completes the transfer with the error |
| `VulkanShmImage.CreateShmTexture` | src/gfx_apis/vulkan/shm_image.rs:627-648 | each error of `create_shm_texture` holds exactly under its condition, in the order checked; on success the stride covers a row of the width and the size is the stride times the height, within u32 |
| `VulkanShmImage.StrideCoversRow` | src/gfx_apis/vulkan/shm_image.rs:634-637 | a stride that is a multiple of the bytes per pixel and holds at least the width in pixels holds a row's bytes |
| `VulkanShmImage.CreateShmImage` | src/gfx_apis/vulkan/shm_image.rs:617-743 | an image is created exactly when the texture is valid and the device calls succeed; it starts undefined, and with initial data its upload defines it; errors are those of the texture |
| `VulkanShmImage.ClampIsUnitAlignment` | src/gfx_apis/vulkan/shm_image.rs:106-117 | the clipping of one damage rectangle in `upload` is the transfer clipping at granularity one, so it inherits `AlignedDamageMeans` |
| `VulkanShmImage.PackedOfLayout` | src/gfx_apis/vulkan/shm_image.rs:102-126 | in the packed staging buffer each copy starts where the rows of the copies before it end, and the total size is the sum of the copies' sizes |
| `VulkanShmImage.PackedMatchesRegions` | src/gfx_apis/vulkan/shm_image.rs:102-126 | the packed copies are the asynchronous copies of the same damage, rectangle by rectangle, with only the buffer offsets differing |
| `VulkanShmImage.PackDamage` | src/gfx_apis/vulkan/shm_image.rs:102-126 | the damage loop yields the packed copies and total size `PackedOf` defines |
| `VulkanShmImage.PackedSizeWrapsAsWritten` | src/gfx_apis/vulkan/shm_image.rs:101-121 | as written, two full-image damage rectangles of a 3 * 2^30-byte image give a 2^31-byte staging buffer while the second copy starts at 3 * 2^30; without wrap-around the staging size is 6 * 2^30 |
| `VulkanShmImage.RowFits` | src/gfx_apis/vulkan/shm_image.rs:143-157 | each row a copy inside the image reads lies within the client buffer |
| `VulkanShmImage.RowsOfLength` | src/gfx_apis/vulkan/shm_image.rs:143-157 | the rows of one copy take exactly its size |
| `VulkanShmImage.RowsOfAt` | src/gfx_apis/vulkan/shm_image.rs:143-157 | byte `k` of row `dy` of the packed copy is the client byte at that row's start plus `k` |
| `VulkanShmImage.PackedBytesLength` | src/gfx_apis/vulkan/shm_image.rs:143-157 | the packed bytes of all copies take exactly the total size |
| `VulkanShmImage.PackedBytesAt` | src/gfx_apis/vulkan/shm_image.rs:143-157 | each packed byte of each copy is the client byte it stands for |
| `VulkanShmImage.WriteRows` | src/gfx_apis/vulkan/shm_image.rs:143-157 | the row copy loop writes exactly the packed bytes of all copies |
| `VulkanShmImage.PackedBytesStaged` | src/gfx_apis/vulkan/shm_image.rs:102-157 | for damage, every copy lies in the image, the staging buffer has the plan's size, and every byte each copy reads from the staging buffer is the client pixel it copies |
| `VulkanShmImage.PackedCovers` | src/gfx_apis/vulkan/shm_image.rs:102-126 | every copy lies in the image, and every damaged pixel inside the image is covered by some copy |
| `VulkanShmImage.FullStaged` | src/gfx_apis/vulkan/shm_image.rs:127-160 | without damage, the whole client buffer is staged and the single copy reads every pixel from where the image keeps it |
| `VulkanShmImage.SubmitBufferToImageCopy` | src/gfx_apis/vulkan/shm_image.rs:179-274 | succeeds exactly when a buffer is available and the fence and submission succeed; success defines the image; a sync file is exported under a fresh point or the call returns nothing |
| `VulkanShmImage.PlanUpload` | src/gfx_apis/vulkan/shm_image.rs:102-132 | the planned copies and staging size are the packing of the damage, or the single whole-image copy and the image size without damage |
| `VulkanShmImage.FillStaging` | src/gfx_apis/vulkan/shm_image.rs:140-160 | the staging buffer has the planned size and holds, for every copy, the client bytes that copy reads |
| `VulkanShmImage.Upload` | src/gfx_apis/vulkan/shm_image.rs:64-177 | refused when defunct; empty damage does nothing; otherwise succeeds exactly when staging, flush and submission do, with the staging buffer holding exactly the bytes every copy reads, and the image defined afterwards |
| `VulkanShmImage.AwaitUpload` | src/gfx_apis/vulkan/shm_image.rs:277-295 | the command buffer goes back to the cache and the upload is no longer pending |
| `VulkanShmImage.Complete` | src/gfx_apis/vulkan/shm_image.rs:297-302 | the image is free and the callback, if still present, runs once with the result |
| `VulkanShmImage.CompleteTwice` | src/gfx_apis/vulkan/shm_image.rs:297-302 | a second completion delivers nothing more: the callback runs at most once |
| `VulkanShmImage.UploadRefusal` | src/gfx_apis/vulkan/shm_image.rs:334-339 | busy is refused with `AsyncCopyBusy`, then client memory shorter than the image with `InvalidBufferSize`; neither holds exactly when the upload can start |
| `VulkanShmImage.AsyncUploadInitiateCopy` | src/gfx_apis/vulkan/shm_image.rs:424-502 | refused when defunct; otherwise a CPU job under a fresh point copying the copies' rectangles into staging for mapped memory, or reading one byte range covering every copy within client memory for a file |
| `VulkanShmImage.TryAsyncUpload` | src/gfx_apis/vulkan/shm_image.rs:327-409 | refusals change nothing; otherwise the image is busy, records the copies of the damage (all of it while undefined) inside the image, and starts the host copy or requests its staging buffer |
| `VulkanShmImage.UndefinedUploadCopiesWholeImage` | src/gfx_apis/vulkan/shm_image.rs:341-343 | while the contents are undefined the upload records one copy of the whole image |
| `VulkanShmImage.AsyncUpload` | src/gfx_apis/vulkan/shm_image.rs:307-325 | a refusal is returned unchanged; a started upload stores its callback under a fresh point, which identifies it, and has a host copy pending or its staging buffer requested |
| `VulkanShmImage.AsyncUploadAfterAllocation` | src/gfx_apis/vulkan/shm_image.rs:398-422 | with the staging buffer allocated the image keeps it and starts the host copy; a failed allocation or start completes the upload with the error |
| `VulkanShmImage.AsyncUploadCopyBufferToImage` | src/gfx_apis/vulkan/shm_image.rs:504-531 | a failed host copy reports `AsyncCopyToStaging`, a defunct renderer `Defunct`; a missing staging buffer panics; otherwise the copy is submitted and kept pending, defining the image |
| `VulkanShmImage.CompleteAsyncUpload` | src/gfx_apis/vulkan/shm_image.rs:575-590 | the CPU job is no longer pending; a failure completes the upload with its error; a submitted copy leaves the callback waiting |
| `VulkanShmImage.AwaitAsyncUpload` | src/gfx_apis/vulkan/shm_image.rs:592-606 | the command buffer goes back to the cache, the upload is no longer pending and it completes with success |
| `VulkanShmImage.UploadRoundTrip` | src/gfx_apis/vulkan/shm_image.rs:307-606 | with staging present and every call succeeding, the callback receives `Ok` exactly once and the image ends defined and free, with no job left pending |
| `MetalAllocator.NamesIdentifyMethods` | src/backends/metal/allocator.rs:616-626 | looking a method's name up among the variants finds that method, and no two methods share a name |
| `MetalAllocator.SplitJoin` | src/backends/metal/allocator.rs:1536 | splitting `JAY_PRIME_METHODS` at commas keeps every piece, empty ones included: the pieces joined with commas give the value back, and no piece holds a comma |
| `MetalAllocator.Trim` | src/backends/metal/allocator.rs:1537 | a trimmed piece neither starts nor ends with a Unicode white-space character |
| `MetalAllocator.TrimmedIsTrim` | src/backends/metal/allocator.rs:1537 | trimming leaves a string without surrounding white space unchanged |
| `MetalAllocator.ParseDirective` | src/backends/metal/allocator.rs:1536-1551 | a piece yields a directive only when its trimmed form is a method's name (allow) or `-` followed by one (forbid); an empty piece yields none |
| `MetalAllocator.ParseDirectiveOfName` | src/backends/metal/allocator.rs:1536-1551 | a method's name allows that method and the name behind a `-` forbids it |
| `MetalAllocator.ApplyPieces` | src/backends/metal/allocator.rs:1535-1552 | the loop over the pieces leaves the list and the seen set such that deciding any later directives continues the decision of all the pieces' directives |
| `MetalAllocator.ApplyDefaults` | src/backends/metal/allocator.rs:1553-1555 | the loop over every variant appends exactly the decision of one allowing directive per variant |
| `MetalAllocator.PrimeMethods` | src/backends/metal/allocator.rs:1524-1558 | the result is the decision of the variable's directives followed by one allowing directive per variant |
| `MetalAllocator.PrimeMethodsOrder` | src/backends/metal/allocator.rs:1524-1558 | the methods the variable allows come first, in the order of their first mention, followed by every variant it does not mention, in declaration order |
| `MetalAllocator.PrimeMethodsMembers` | src/backends/metal/allocator.rs:1527-1534 | a method is tried exactly when the first piece naming it does not forbid it; a method the variable never names is tried |
| `MetalAllocator.PrimeMethodsFit` | src/backends/metal/allocator.rs:1520-1534 | no method is tried twice, so the list never exceeds the five slots of its `ArrayVec` |
| `MetalAllocator.DecideAppend` | src/backends/metal/allocator.rs:1527-1534 | deciding two lists of directives in turn decides the second with the first list's methods already seen |
| `MetalAllocator.IntersectModifiers` | src/backends/metal/allocator.rs:1568-1577 | the result holds exactly the modifiers of the left list that the right list holds, each as often as on the left, in the left list's order |
| `MetalAllocator.IntersectDistinct` | src/backends/metal/allocator.rs:1568-1577 | the intersection of a list without repetitions has none |
| `MetalAllocator.IntersectRenderModifiers` | src/backends/metal/allocator.rs:1579-1589 | the result holds exactly the modifiers the format can write and read that the right list holds |
| `MetalAllocator.IntersectRenderDistinct` | src/backends/metal/allocator.rs:1579-1589 | for a well-formed format the result has no repetitions |
| `MetalAllocator.MakeLinearOnly` | src/backends/metal/allocator.rs:1591-1595 | a list holding `LINEAR` becomes just `[LINEAR]`; any other list is kept |
| `MetalAllocator.MakeLinearOnlyKeeps` | src/backends/metal/allocator.rs:1591-1595 | the result keeps only modifiers of the input, is empty exactly when the input is, and a second application changes nothing |
| `MetalAllocator.AllocationUsage` | src/backends/metal/allocator.rs:811-833 | `SCANOUT` is set exactly for scanout buffers, `LINEAR` exactly for scanout cursors, `RENDERING` exactly when render usage is needed, and no other flag |
| `MetalAllocator.New1` | src/backends/metal/allocator.rs:776-791 | the modifiers are the map's keys; render usage is requested exactly when rendering and some write modifier of the map needs it |
| `MetalAllocator.New2` | src/backends/metal/allocator.rs:793-809 | the modifiers are those given; without rendering no render usage is requested |
| `MetalAllocator.New2Usage` | src/backends/metal/allocator.rs:793-809 | with rendering, render usage is requested exactly when some listed modifier's entry in the format's write map needs it |
| `MetalAllocator.CopyModifiers` | src/backends/metal/allocator.rs:941-951 | a modifier is listed exactly when some support entry for it allows at least the buffer's width and height |
| `MetalAllocator.PrepareNone` | src/backends/metal/allocator.rs:974-1002 | fails with `SodWriteReadPlaneIntersection` exactly when no modifier is writable, readable and accepted by the plane; otherwise the render buffer itself is scanned out and allocated with exactly those modifiers |
| `MetalAllocator.PrepareSampling` | src/backends/metal/allocator.rs:1028-1086 | a missing scanout format, an empty render write/read/scanout-read intersection and an empty scanout write/plane intersection fail in this order; otherwise only the scanout buffer is scanned out and both use modifiers drawn from those intersections |
| `MetalAllocator.PrepareDirectPush` | src/backends/metal/allocator.rs:1131-1183 | a missing render copy device, a missing scanout copy device, an empty render/copy-source intersection and an empty plane/copy-destination intersection fail in this order; otherwise the settings use those two sets |
| `MetalAllocator.PrepareDirectPull` | src/backends/metal/allocator.rs:1218-1265 | a missing scanout copy device and the two empty intersections of the scanout copy device fail in this order; otherwise the settings use those two sets |
| `MetalAllocator.PrepareIndirectPull` | src/backends/metal/allocator.rs:1299-1357 | missing copy devices, the render intersection, a render copy device unable to write linear, a scanout copy device unable to read linear and the plane intersection fail in this order |
| `MetalAllocator.PrepareUdmabuf` | src/backends/metal/allocator.rs:1406-1468 | a missing udmabuf device, then the render copy device and its linear writes, then the scanout copy device and its linear reads, then the two intersections fail in this order |
| `MetalAllocator.CopyMethodsScanOutWhatThePlaneTakes` | src/backends/metal/allocator.rs:1159-1166 | a copying method's scanout buffer uses only modifiers the plane accepts and the copy destination writes at this size, and only `LINEAR` whenever both allow it |
| `MetalAllocator.CreateBuffers` | src/backends/metal/allocator.rs:498-511 | succeeds exactly when every allocation succeeds, then yields the built buffers with the first one's full damage; otherwise fails with the first failing allocation's error |
| `MetalAllocator.NewBuffersOweFullRedraw` | src/backends/metal/allocator.rs:498-511 | every new buffer is locked, of the builder's size, tagged with its method and owes exactly its full rectangle |
| `MetalAllocator.TryCreate` | src/backends/metal/allocator.rs:446-452 | one attempt prepares the method and then allocates every buffer, each failure tagged with the method |
| `MetalAllocator.CreateScanoutBuffers` | src/backends/metal/allocator.rs:401-495 | the result is the format check, then the no-prime path for one device, otherwise the fallback over the configured methods collecting every failure |
| `MetalAllocator.TryMethodsMeans` | src/backends/metal/allocator.rs:445-495 | the fallback succeeds exactly when some method does, with the buffers of the first such method; when it fails it holds one error per method, in order, each tagged with its method |
| `MetalAllocator.ScanoutBuffersPath` | src/backends/metal/allocator.rs:436-495 | one device never uses a prime method and fails with a single error; two devices use only configured methods and fail with one error per method |
| `MetalAllocator.DevCopyDevice` | src/backends/metal/allocator.rs:332-342 | exactly the four copying kinds have a scanout copy device |
| `MetalAllocator.CopyToNew` | src/backends/metal/allocator.rs:228-319 | differing sizes fail; a copy device of the new or else the old buffer copies scanout object to scanout object; otherwise the new buffer's shown framebuffer draws the old buffer's shown texture, imported into the new context when the contexts differ |
| `MetalAllocator.CopyToNewUnreachable` | src/backends/metal/allocator.rs:275-316 | without a copy device on either side both buffers are of the no-prime or sampling kind, so the `unreachable!()` arms never run |
| `EdidFields.LeU16RoundTrip` | src/edid.rs:477-480 | reading two bytes as a little-endian `u16` and splitting a `u16` into its two bytes are inverse in both directions |
| `EdidFields.LeU32RoundTrip` | src/edid.rs:482-485 | reading four bytes as a little-endian `u32` and splitting a `u32` into its four bytes are inverse in both directions |
| `EdidFields.ManufacturerName` | src/edid.rs:496-504 | the name has three letters, each a five-bit code offset from `@` and so between `@` and `_` |
| `EdidFields.ManufacturerRoundTrip` | src/edid.rs:496-504 | three five-bit codes packed as the name bytes store them decode to the same codes and letters, with the reserved top bit clear |
| `EdidFields.ManufacturerLossless` | src/edid.rs:496-504 | re-packing the decoded codes gives back both name bytes except the reserved top bit |
| `EdidFields.ManufactureDateOf` | src/edid.rs:975-989 | the week is present exactly for 1 to 0x36 and is that byte; the model year is present exactly when the week byte is 0xff; exactly one of model year and year of manufacture is present, and it is the year byte plus 1990 |
| `EdidFields.ManufactureDateRoundTrip` | src/edid.rs:975-989 | for a week byte up to 0x36 or 0xff, the decoded date encodes back to both bytes |
| `EdidFields.VideoInputDefinitionOf` | src/edid.rs:506-542 | the input is digital exactly when bit 7 is set, and the decoded definition only holds values the byte can store |
| `EdidFields.BitDepthCodeOf` | src/edid.rs:510-519 | every three-bit colour depth code, including the reserved 0b111, decodes to a depth that encodes back to that code |
| `EdidFields.InterfaceCodeOf` | src/edid.rs:521-528 | every four-bit interface code, including the unknown ones, decodes to a standard that encodes back to that code |
| `EdidFields.VideoInputLossless` | src/edid.rs:506-542 | re-encoding the decoded video input definition gives back the byte |
| `EdidFields.VideoInputRoundTrip` | src/edid.rs:506-542 | every storable video input definition decodes back from its byte |
| `EdidFields.ScreenDimensionsOf` | src/edid.rs:544-562 | a size in cm exactly when both bytes are non-zero, a portrait ratio exactly when only the vertical byte is, a landscape ratio exactly when only the horizontal byte is, each holding the stored bytes |
| `EdidFields.ScreenDimensionsExclusive` | src/edid.rs:544-562 | exactly one of size, landscape and portrait is present unless both bytes are 0, and then none is |
| `EdidFields.GammaCode` | src/edid.rs:564-572 | the gamma is absent exactly for 0xff and is otherwise the stored code |
| `EdidFields.FeatureSupportOf` | src/edid.rs:574-601 | the colour features are the digital ones exactly for a digital input, and a digital input always supports RGB 4:4:4 |
| `EdidFields.DisplayColorTypeCodeOf` | src/edid.rs:589-594 | every two-bit display colour type code decodes to a type that encodes back to that code |
| `EdidFields.FeatureSupportLossless` | src/edid.rs:574-601 | re-encoding the decoded feature support gives back the byte, for a digital and an analog input alike |
| `EdidFields.ChromaticityTenBits` | src/edid.rs:603-624 | every decoded chromaticity coordinate is ten bits wide |
| `EdidFields.CoordinateOfEncoded` | src/edid.rs:603-624 | a ten-bit coordinate split into its high byte and its two bits in a shared low byte is reassembled exactly, at each of the four bit positions |
| `EdidFields.HighLowOfCoordinates` | src/edid.rs:603-624 | reassembled coordinates split back into the shared low byte and their high bytes |
| `EdidFields.ChromaticityRoundTrip` | src/edid.rs:603-624 | eight ten-bit coordinates encoded into ten bytes decode back unchanged |
| `EdidFields.ChromaticityLossless` | src/edid.rs:603-624 | every ten chromaticity bytes decode to ten-bit coordinates that encode back to the same bytes |
| `EdidFields.EstablishedPositionsDistinct` | src/edid.rs:626-648 | each of the 17 established timings has its own byte (0 to 2) and bit, and that position names it |
| `EdidFields.EstablishedTimingsAsWritten` | src/edid.rs:626-648 | as written every timing is tested on the first byte: each timing reported has its bit set in byte 0 |
| `EdidFields.EstablishedTimingsAsWrittenConflates` | src/edid.rs:626-648 | as written the bytes 0x80 0 0 report 720x400 at 70 Hz, 800x600 at 72 Hz and 1152x870 at 75 Hz, and 0 0x80 0x80 report nothing |
| `EdidFields.EstablishedTimingsOf` | src/edid.rs:626-648 | (corrected) each timing reported has its bit set in its own byte |
| `EdidFields.EstablishedTimingsSeparate` | src/edid.rs:626-648 | (corrected) three bytes with only one timing's bit set report exactly that timing |
| `EdidFields.StandardTimingOf` | src/edid.rs:650-665 | a slot is empty exactly when its first byte is 0; otherwise the width is a multiple of 8 from 256 to 2288, the rate is 60 to 123 Hz, and the ratio is 1:1 exactly for code 0 before revision 3 |
| `EdidFields.StandardTimingLossless` | src/edid.rs:650-665 | a used slot's timing encodes back to its two bytes |
| `EdidFields.StandardTimingInjective` | src/edid.rs:650-665 | two used slots that decode to the same timing hold the same bytes |
| `EdidFields.StandardTimingSlot` | src/edid.rs:711-716 | a base-block slot is empty exactly when its first byte is 0 or it holds the unused pair (1, 1); otherwise it is the decoded timing |
| `EdidDescriptors.PixelClock` | src/edid.rs:724 | the pixel clock is the little-endian `u16` times 10 000, so at most 655 350 000 |
| `EdidDescriptors.DetailedTimingOf` | src/edid.rs:721-771 | every decoded detailed timing fits the widths the descriptor stores (12-bit sizes, 10-bit horizontal porch and pulse, 6-bit vertical porch and pulse) |
| `EdidDescriptors.FlagsRoundTrip` | src/edid.rs:737-769 | the flags byte built from a timing decodes back to its interlace flag, stereo mode and sync signal |
| `EdidDescriptors.FlagsLossless` | src/edid.rs:737-769 | a flags byte whose stereo code is not 001 is rebuilt exactly from its decoded flags |
| `EdidDescriptors.DetailedTimingLossless` | src/edid.rs:721-771 | re-encoding a decoded detailed timing gives back all 18 bytes, unless the stereo code is 001, which also means no stereo |
| `EdidDescriptors.DetailedTimingRoundTrip` | src/edid.rs:721-771 | every storable detailed timing decodes back from its 18 bytes |
| `EdidDescriptors.Rate` | src/edid.rs:777-785 | a range-limit rate is at most 510 and is offset by 255 exactly when its offset flag applies |
| `EdidDescriptors.ExtendedTimingOf` | src/edid.rs:787-828 | the extended timing is unknown exactly when byte 10 is not 0, 1, 2 or 4; a CVT maximum line width is a multiple of 8 up to 8184 |
| `EdidDescriptors.DisplayRangeLimitsOf` | src/edid.rs:773-830 | each rate is its byte plus 255 when its offset flag applies, a maximum taking the offset of its minimum too; the pixel clock is byte 9 times 10 MHz; the extended timing is read from byte 10 on |
| `EdidDescriptors.DisplayRangeLimitsOrdered` | src/edid.rs:777-785 | stored minima not above their maxima stay not above them after the offsets, and an offset minimum forces an offset maximum |
| `EdidDescriptors.ColorPointAsWritten` | src/edid.rs:681-702 | as written a white point's gamma, when present, is the byte after the one tested for 0xff |
| `EdidDescriptors.ColorPointGammaAsWrittenMisread` | src/edid.rs:689-693 | for a descriptor whose first white point stores gamma 2.2 (0x78), the as-written gamma is the next white point's index 0 |
| `EdidDescriptors.ColorPointOf` | src/edid.rs:681-702 | (corrected) the white point index and the high bits of x and y are their own bytes, the low bits come from the shared byte, and the gamma is absent exactly for 0xff and is otherwise that same byte |
| `EdidDescriptors.ColorPointsOf` | src/edid.rs:696-701 | the first white point is always reported and the second exactly when its index is not 0 |
| `EdidDescriptors.ParseColorPoint` | src/edid.rs:681-702 | (corrected) the loop over the two white points returns what `ColorPointsOf` describes |
| `EdidDescriptors.StandardTimings2AsWritten` | src/edid.rs:667-679 | as written the descriptor holds six slots, each decoded by `parse_standard_timing` alone |
| `EdidDescriptors.StandardTimings2AsWrittenReadsUnused` | src/edid.rs:667-679 | as written the unused pair (1, 1) reads as a 256-pixel timing, where the corrected reading leaves the slot empty |
| `EdidDescriptors.ParseStandardTimings2` | src/edid.rs:667-679 | (corrected) the loop returns the six slots of `StandardTimings2Of`, each decoded like a base-block slot |
| `EdidDescriptors.StandardTimings2Empty` | src/edid.rs:667-679 | (corrected) a slot is empty exactly when its first byte is 0 or it holds (1, 1) |
| `EdidDescriptors.ColorManagementDataOf` | src/edid.rs:881-890 | each of the six coefficients splits into exactly the two bytes it was read from, little-endian |
| `EdidDescriptors.Cvt3ByteCodeOf` | src/edid.rs:892-917 | the addressable line count is below 4096 and its low byte is the code's first byte |
| `EdidDescriptors.Cvt3ByteCodesOf` | src/edid.rs:892-917 | the descriptor holds four codes, the n-th read at offset 6 + 3 n |
| `EdidParser.UntilNewline` | src/edid.rs:922-932 | a text field is the longest prefix of the bytes without a newline: a prefix, no newline in it, and a newline right after it when it stops early |
| `EdidParser.EstablishedTimings3Of` | src/edid.rs:832-879 | an established timings III descriptor holds 44 flags |
| `EdidParser.EstablishedTimings3Lossless` | src/edid.rs:832-879 | packing the 44 flags back gives bytes 6 to 10 and the top half of byte 11 |
| `EdidParser.DescriptorOf` | src/edid.rs:919-958 | no descriptor exactly for tag 0x10 after two zero bytes; a detailed timing exactly when the first two bytes are not both 0, decoded by `DetailedTimingOf`; an unknown tag only for tags none of the cases names |
| `EdidParser.BaseBlockResultAt` | src/edid.rs:969-1021 | the base block parses exactly when 128 bytes remain and the first 8 are the header; the header is refused exactly when 8 bytes remain and differ from it; a parsed block's extension count is byte 0x7e and its revision byte 0x13 |
| `EdidParser.Luminance` | src/edid.rs:1056-1065 | a luminance is present exactly when its byte exists and is not 0, and is that byte |
| `EdidParser.CtaDataBlockOf` | src/edid.rs:1023-1093 | a data block fails only with `UnexpectedEof`, exactly when a vendor block is shorter than its OUI or than the AMD fields, or an extended block is shorter than its tag or than its colorimetry or HDR header; it is the AMD vendor block exactly when the OUI is AMD's and 7 bytes are present, holding bytes 5 and 6 as the refresh range |
| `EdidParser.CtaBlocksFromErrors` | src/edid.rs:1095-1112 | the data block walk fails, and sets blocks aside, only with `UnexpectedEof`, and ends at once when the start is not before the descriptor offset |
| `EdidParser.CtaV3Of` | src/edid.rs:1095-1112 | a revision 3 CTA extension parses to `CtaV3` exactly when its two header bytes are present and the data block walk does not run out of bytes |
| `EdidParser.ExtensionOf` | src/edid.rs:1114-1127 | an extension block is a CTA revision 3 extension exactly when its tag is 2, its revision is 3 and its data blocks parse; it fails only with `UnexpectedEof` |
| `EdidParser.ExtensionsAtAccounts` | src/edid.rs:1142-1148 | (corrected) every 128-byte block, and a shorter remainder, yields exactly one extension or one stored error |
| `EdidParser.Parser.constructor` | src/edid.rs:1277-1286 | a fresh parser reads the whole blob from offset 0 with no stored errors |
| `EdidParser.Parser.IsEmpty` | src/edid.rs:446-448 | the parser is empty exactly when the cursor is at or past the end of the data |
| `EdidParser.Parser.StoreError` | src/edid.rs:442-444 | an error is appended to the stored errors |
| `EdidParser.Parser.ReadN` | src/edid.rs:452-470 | with fewer than n bytes left the read fails with `UnexpectedEof` and the cursor stays; otherwise it returns the next n bytes and the cursor moves past them |
| `EdidParser.Parser.ReadU8` | src/edid.rs:472-475 | the next byte, or `UnexpectedEof` with the cursor unmoved |
| `EdidParser.Parser.ReadU16` | src/edid.rs:477-480 | the next two bytes as a little-endian `u16`, or `UnexpectedEof` with the cursor unmoved |
| `EdidParser.Parser.ReadU32` | src/edid.rs:482-485 | the next four bytes as a little-endian `u32`, or `UnexpectedEof` with the cursor unmoved |
| `EdidParser.Parser.ParseMagic` | src/edid.rs:487-494 | the header succeeds exactly when the next 8 bytes are 00 ff ff ff ff ff ff 00, fails with `InvalidMagic` of those bytes otherwise, and with `UnexpectedEof` when fewer than 8 remain |
| `EdidParser.Parser.ParseIdManufacturerName` | src/edid.rs:496-504 | the name decoded from the next two bytes, or `UnexpectedEof` with the cursor unmoved |
| `EdidParser.Parser.ParseVideoInputDefinition` | src/edid.rs:506-542 | the definition decoded from the next byte, or `UnexpectedEof` with the cursor unmoved |
| `EdidParser.Parser.ParseScreenDimensions` | src/edid.rs:544-562 | the dimensions decoded from the next two bytes, or `UnexpectedEof` with the cursor unmoved |
| `EdidParser.Parser.ParseGamma` | src/edid.rs:564-572 | the gamma decoded from the next byte, or `UnexpectedEof` with the cursor unmoved |
| `EdidParser.Parser.ParseFeatureSupport` | src/edid.rs:574-601 | the feature support decoded from the next byte for the given input kind, or `UnexpectedEof` with the cursor unmoved |
| `EdidParser.Parser.ParseChromaticityCoordinates` | src/edid.rs:603-624 | the coordinates decoded from the next ten bytes, or `UnexpectedEof` with the cursor unmoved |
| `EdidParser.Parser.ParseEstablishedTimings` | src/edid.rs:626-648 | (corrected) the timings decoded from the next three bytes by `EstablishedTimingsOf`, or `UnexpectedEof` with the cursor unmoved |
| `EdidParser.Parser.ParseStandardTimings` | src/edid.rs:704-719 | the loop returns the eight slots of the next 16 bytes, the pair (1, 1) left empty, or `UnexpectedEof` with the cursor unmoved |
| `EdidParser.Parser.ParseDescriptor` | src/edid.rs:919-958 | the descriptor `DescriptorOf` gives for the next 18 bytes, or `UnexpectedEof` with the cursor unmoved |
| `EdidParser.Parser.ParseDescriptors` | src/edid.rs:960-967 | the four descriptors of the next 72 bytes, or `UnexpectedEof` exactly when fewer remain |
| `EdidParser.Parser.ParseIdentification` | src/edid.rs:972-990 | the name, product code, serial number, date, version and revision of the next 12 bytes, or `UnexpectedEof` exactly when fewer remain |
| `EdidParser.Parser.ParseBasicDisplay` | src/edid.rs:991-995 | the video input, screen size, gamma and feature support of the next 5 bytes, the features read as the input says, or `UnexpectedEof` exactly when fewer remain |
| `EdidParser.Parser.ParseColorAndTimings` | src/edid.rs:996-998 | the chromaticity, established and standard timings of the next 29 bytes, or `UnexpectedEof` exactly when fewer remain |
| `EdidParser.Parser.ParseBaseBlock` | src/edid.rs:969-1021 | (corrected) the result is `BaseBlockResultAt` of the cursor, and a parsed block moves the cursor by 128 |
| `EdidParser.Parser.ParseCtaDataBlocks` | src/edid.rs:1098-1110 | the loop's blocks and set-aside errors are those of the data block walk from the cursor to the descriptor offset |
| `EdidParser.Parser.ReadCtaDataBlock` | src/edid.rs:1100-1103 | one header and payload; running out of bytes is exactly the walk's failure, and otherwise the walk from the old cursor is this block in front of the walk from the new one |
| `EdidParser.Parser.ParseCtaExtensionV3` | src/edid.rs:1095-1112 | the result and the set-aside errors are those of `CtaV3Of` at the cursor |
| `EdidParser.Parser.ParseExtensionImpl` | src/edid.rs:1114-1127 | a nested parser over one block returns `ExtensionOf` of it and stores that block's data block errors |
| `EdidParser.Parser.ParseExtension` | src/edid.rs:1129-1138 | with fewer than 128 bytes left the result is `UnexpectedEof` and the cursor stays; otherwise it is `ExtensionOf` the next 128 bytes and the cursor moves past them |
| `EdidParser.Parser.ParseExtensions` | src/edid.rs:1142-1148 | (corrected) the extensions and stored errors are those of `ExtensionsAt` the cursor, a short remainder ending the loop with one `UnexpectedEof` |
| `EdidParser.Parser.Parse` | src/edid.rs:1140-1153 | (corrected) a base block error is returned with no error stored; otherwise the file holds the base block and the extensions from offset 128 on, their errors stored |
| `EdidParser.ParseEdid` | src/edid.rs:1277-1286 | (corrected) the blob parses to the base block at 0 and the extensions after it, or to the base block's error |
| `EdidParser.ExtensionStepAsWritten` | src/edid.rs:1143-1147 | as written one iteration leaves the cursor where it was when fewer than 128 bytes remain and moves it by 128 otherwise, never past the end |
| `EdidParser.ExtensionWalkAsWritten` | src/edid.rs:1143-1147 | as written the cursor after k iterations stays within the blob and never moves back |
| `EdidParser.ShortTailNeverEmptiesAsWritten` | src/edid.rs:1143-1147 | as written, with 1 to 127 bytes left no number of iterations moves the cursor, so the loop's guard stays true |

## Left out

- Wayland object dispatch, client bookkeeping and event sending: the model works on the state that requests change, not on the wire.
- WlSurface.Surface.ApplyState: the recursive apply of the attached sub-surfaces' cached states and the early return of a destroyed surface are left out; the model applies one surface.
- WlSurface.Surface.ApplyState: the role hooks `before_apply_commit` and `after_apply_commit`, the extents update and its propagation, the cursors' buffer-change handling and the presentation-type update of a fullscreen toplevel are calls into other objects and are left out.
- WlSurface.Surface.ApplyState: the `ViewportOutsideBuffer` check works on floating-point rectangles and is left out; so are the buffer points, the damage matrix, output damage, presentation feedback, frame scheduling, the shm texture reset and the commit version counter.
- WlSurface: the client's wire scale is taken as the identity, so logical and buffer sizes agree apart from the buffer scale.
- WlSurface: the pending xdg-surface, layer-surface and sub-surface data are stand-ins, and their own `merge` functions are parameters (their types are not part of this model); `Fixed::is_integer` and `to_int` are written out on the raw 24.8 value, since src/fixed.rs is not part of this model.
- WlSurface.Surface.HandleAckedSerial, WlSurface.Surface.Unblocked: the clock is a parameter (`timedOut`, `isUnblocked`); `enable_tardy` and `disable_tardy` of the configurable role are returned as flags, the tree-serial registration in `tt.add_op` and the commit timeline's `tree_unblocked` likewise.
- WlSurface: src/utils/syncqueue.rs is not part of this model; the barrier queue is taken to pop from the front, where `push_front` puts back a barrier that is kept.
- WlSurface: buffer import, the registry of xwayland serials, the tree-changed notification and the fifo barrier of the commit timeline are reported as results rather than performed.
- CommitTimeline: garbage collection of finished timelines (`gc`, `clear`, `break_loops`) and the error paths of sync-obj waits, uploads and polls; a Signal whose Wait is missing or already signalled only pops, and the upload counter is an input.
- MetalPresent: `prepare_direct_scanout` (floating-point scaling), screencopies, sync-file waits, the decay of the pre-commit margin (src/backends/metal/present.rs:166-171), the render pass itself and profiling.
- MetalPresent: src/rect.rs (`DamageQueue`) is not part of this model; a queue group is one damage list per buffer, `damage` adds to every list of the group, `clear` empties one list and `clear_all` every list.
- MetalAllocator: the `create_*` methods, their GBM allocations, imports, framebuffers, copies and the blend buffer are calls into GBM, DRM and the graphics and copy devices; their outcome for each buffer is an input function, and the blend buffer is a flag.
- MetalAllocator: `RenderBuffer::clear`, `copy_to_dev`, the allocation debug records and all logging are not modelled; errors carry their kind and method but not the device's error.
- MetalAllocator: the warning for an unknown method name and the log line of the chosen order have no counterpart; an unknown name is skipped.
- MetalAllocator.ApplyPieces: takes the piece parser as a parameter, which the program instantiates with `ParseDirective`; this keeps the loop's proof apart from the string matching.
- MetalAllocator.CopyModifiers: widths and heights are natural numbers; the `as u32` cast of a negative `i32` size is not modelled.
- MetalAllocator.CopyToNew: yields the copy it would perform; the failure of the copy, the import or the texture conversion is left to the devices.
- MetalTransaction: `calculate_change` (the property diff written into the atomic request) and the propagation of the per-plane and per-CRTC `changed` marks it reads.
- MetalTransaction: the HDR metadata blob, the GPU copy and clear of buffers (their success is the input `clearOk`), sync files and polls.
- MetalTransaction: the sharing of `Rc` objects between transaction and device, the frontend events and the swap of new state into the device after `apply`, rollback, `crtc_idle`, version counters and the conversion of colour spaces to DRM values.
- MetalTransaction: `create_transaction`, which copies the device state into the transaction, is not modelled; the transaction is an input.
- MetalTransaction.SettledIsApplyReady: needs, besides the settled state, that no two connectors share a CRTC and that no connector id is `NONE`; `create_transaction` guarantees both, and it is not modelled.
- Drm: the ioctls themselves (`mode_atomic`, `getblob_vec` and others); a blob's bytes and the kernel's answers are inputs, and `WellFormedChange` states the assertions `mode_atomic` makes.
- MetalVideo: the atomic change lists that `reset_planes`, `reset_connectors_and_crtcs`, `assign_connector_crtc`, `assign_connector_plane`, `present` and the CRTC loop of `can_use_current_drm_mode` fill are not modelled; the model tracks the cells those functions set, and each commit is a function from the flags to success (`probe`, `commit`).
- MetalVideo: the kernel's mode blobs are inputs: `currentMode` answers `getblob` for a blob id and `blob` answers `create_blob` for a connector.
- MetalVideo: `create_scanout_buffers` (GBM allocation, framebuffer and EGL import) is the input `alloc`; its three errors become the single `ScanoutBuffer`.
- MetalVideo: the rendering in `present`, `start_connector` (a frontend event, then a present) and all logging are left out.
- MetalVideo: the iteration order of the device's hash maps is unspecified in the source; the model fixes it with the id sequences of the device.
- MetalVideo.CreateEncoder, MetalVideo.CreateCrtc: require CRTC indices below 32, since `1 << idx` on a 32-bit mask overflows beyond that.
- MetalVideo.InitLinked: needs, when the configuration is kept, a freshly created device in which no two connectors name the same CRTC; when two connected connectors share a CRTC (clone mode), `can_use_current_drm_mode` links the CRTC to the last of them only, and that case is not characterised.
- MetalVideo.Present: `next_buffer` is an unbounded counter; the source's `NumCell` wraps at the integer width, which keeps the alternation for a pair of buffers.
- MetalVideo: `reuse_primary_planes`' first connector loop is modelled as two passes (`EmptyLists`, then `Deactivate`); the two touch different data, so the result is the same.
- MetalVideo: the `unwrap` of the CRTC lookup in `can_use_current_drm_mode` cannot fail in the model, because every `CRTC_ID` names a CRTC of the device or `NONE` (`Refs`).
- MetalVideo: `sort_by_key` is modelled by `PrimaryFirst`, which keeps the relative order within each group; the model proves it is a permutation that puts connectors with a primary plane first.
- VulkanRenderer: pipelines, descriptor and uniform buffers, `convert_ops`, barriers, draws, the blend-buffer copy, semaphores and sync files are Vulkan calls and are left out; the success of `convert_ops`, `create_data_buffer` and `create_uniform_buffer` (before `collect_memory`) is the input `opsOk`, and the success of every later driver call is `gpuOk`.
- TryExecute: does not model the refusal in `create_regions` of a texture that belongs to another device (src/gfx_apis/vulkan/renderer.rs:1759), which happens before the command buffer is allocated.
- VulkanRenderer: the region arithmetic of `Region` (`from_rects_tagged`, `intersect_tagged`, `subtract_cow`) is in src/rect.rs, which is not part of this model; the tagged region is an input of `AssignPasses`.
- BlendBufferKept and BlendBufferKeptForOptions: take the tagged rectangles themselves as the tagged region, so they leave out the clip to the damaged region and how `from_rects_tagged` resolves the tags of overlapping rectangles.
- VulkanRenderer: `block`, the wait for the device to idle, is left out; it does not change the model's state.
- VulkanTransfer: `submit_buffer_image_copy` and `fill_staging_shell` are not part of this model; their success is a driver input and each yields a fresh timeline point.
- VulkanTransfer: `Rect::new` is taken to refuse a rectangle whose end lies before its start (src/rect.rs is not part of this model).
- VulkanTransfer.AlignedDamage: the `i32` addition `x2 + mask` is unbounded in the model; the source wraps for damage ending within the mask of `i32::MAX`.
- VulkanTransfer.AlignDown: the granularity is taken to be a power of two, as Vulkan guarantees, so `& !mask` rounds down.
- VulkanTransfer: waiting on sync files and the renderer's `block` after a failed wait are left out.
- VulkanTransfer.TryAsyncTransfer: errors after the busy marks (a defunct renderer, a failed release or driver call) leave the image and the shell busy, as the source does; the next transfer is refused with `AsyncCopyBusy`.
- VulkanShmImage.Upload: does not model the `u32` arithmetic of `total_size` (src/gfx_apis/vulkan/shm_image.rs:121). The damage is a slice of rectangles that may overlap, so the sum can wrap around; the model packs with unbounded sizes, which is the corrected behaviour, and the wrap is shown by `PackedOfAsWritten` (see Findings).
- VulkanShmImage.Upload: the caller's buffer is required to hold the whole image, which the unchecked `copy_nonoverlapping` of the source relies on.
- VulkanShmImage: a failed sync-file export makes `submit_buffer_to_image_copy` block the renderer and return nothing; the block and sync-file waits are left out.
- VulkanShmImage.TryAsyncUpload: errors after the busy mark (a defunct renderer, a refused staging request) leave the image busy, as the source does.
- VulkanShmImage: every shm image is taken to have asynchronous data, so the `unwrap` of `async_data` cannot fail; only textures created with a CPU worker have it in the source.
- VulkanShmImage: the older revision's `pending_uploads` and `command_buffers` are the renderer's `pendingSubmits` and graphics command-buffer cache; the staging buffer is the image's `uploadStaging` flag.
- VulkanShmImage.CreateShmImage: Vulkan image creation, memory binding, the image view and the download usage are one input, `deviceOk`.
- CreateBo and ImportDmabuf (VulkanBoAllocator): check the usage with the corrected `ValidateUsage`, which refuses any flag outside `WRITE` and `RENDERING`; the check as written in src/gfx_apis/vulkan/bo_allocator.rs:686-691 is `ValidateUsageAsWritten` (see Findings).
- PrepareTransfer, TryAsyncTransfer and AsyncTransfer: use the corrected `AcceptTransfer`, so their "a refusal changes nothing" is not true of src/gfx_apis/vulkan/transfer.rs:126-133 as written, where a download of undefined contents is refused after the image and the shell were marked busy (`AcceptTransferAsWritten`, see Findings).
- EdidDescriptors and EdidFields: the gamma, the aspect ratio, the chromaticity coordinates and the luminance values are floating point in src/edid.rs; the model keeps the stored bits and the integer formulas and leaves the `f64` conversions out.
- EdidParser: the descriptor strings are decoded from code page 437 in src/edid.rs; the model keeps the bytes up to the first newline (`UntilNewline`), since the character table is not part of this model.
- EdidParser: the error-context stack (`push_ctx` and the saved contexts) only labels errors for logging; errors carry their kind without a context.
- EdidParser.ExtensionErrorsOf: the errors that the nested parser of an extension stores are dropped by `parse_extension`, which gives the nested parser its own error list; the model computes them but does not add them to the outer list.
- EdidParser.CtaDataBlockOf: the nested parser over a data block's payload is modelled as a function of the payload bytes, so its error list and cursor, which the source drops with it, do not appear.
- EdidParser.ParseExtensionImpl: requires the cursor at the start of its block, which `nest` guarantees by creating a fresh parser over the 128 bytes.
- ParseCtaExtensionV3 and ParseExtensionImpl: do not state the nested cursor's final position, which the source discards with the nested parser.
- EdidParser: the stored errors are never read by src/edid.rs beyond logging; the model keeps them as a list so that what is stored can be stated.
- EdidParser.ParseBaseBlock: the checksum byte is read and not checked, as in the source; on an error the cursor position is stated only as not moving backwards.
- src/renderer.rs: the paint order of outputs, containers and surfaces walks the whole window tree and the scene-graph types of src/tree; it is not part of this model, which stops at the renderer's op list.
- src/copy_device.rs: the copy device is a second Vulkan path (queues, dmabuf classification, buffer copies); it is not part of this model, where its outcome is an input of `MetalAllocator.CopyToNew`.
- src/egui_adapter/egui_vulkan.rs and src/egui_adapter/egui_platform.rs: the egui overlay is GUI-toolkit glue over Vulkan and Wayland objects; not part of this model.
- src/cursor.rs: cursor themes are read from files (paths, theme inheritance, the Xcursor format); file I/O and image parsing are not part of this model.
- src/xcon.rs and src/xwayland/xwm.rs: the X11 connection and window manager speak the X11 wire protocol and keep X window properties; not part of this model.
- src/backends/x.rs and src/backends/xorgng.rs: the nested X11 backends translate X events and present to X windows; only the metal backend is modelled.
- src/ifs/wl_surface/xdg_surface/xdg_toplevel.rs, src/ifs/wl_seat.rs and src/tree/container.rs: window management, seats, selections and container layout are the shell layer above the surface; their own state is not part of this model, and the xdg state reaches `WlSurface` only as a stand-in.
- src/ifs/jay_screencast.rs, src/ifs/head_management/jay_head_manager_session_v1.rs and src/portal/ptl_screencast.rs: screencasting, the head-management protocol and the portal session are protocol and D-Bus state machines over objects of the rest of the compositor; not part of this model.
- src/pipewire/pw_pod.rs and src/pipewire/pw_ifs/pw_client_node.rs: the PipeWire pod decoding and client node are IPC with another process; not part of this model.
- src/client/mod.rs, src/tools/tool_client.rs and src/config/handler.rs: client bookkeeping, the tool client's socket framing and the configuration requests are I/O and dispatch; not part of this model.
- jay-config/src/_private/client.rs, jay-config/src/video.rs, toml-config/src/lib.rs and toml-config/src/config/parsers/config.rs: the configuration library and the TOML configuration run in the configuration process and talk to the compositor over messages; not part of this model.
- build/wire_xcon.rs and build/wire_ei.rs: the build-time generators of the X11 and EI protocol code produce source text; not part of this model.
- MetalTransaction.PickPlane: is the corrected plane search, which stops at the first fitting plane; the loop of src/backends/metal/transaction.rs:376-388 has no `break`, so as written every fitting plane leaves the unused set and the slot ends with the last one (`FillAsWritten`, see Findings).
- FillSlot: uses `PickPlane`, so its slot contents and unused set are those of the corrected search, not of the loop as written at src/backends/metal/transaction.rs:376-388.
- FillSlots: fills both slots with `FillSlot`, so it inherits the corrected plane search.
- PrepareSlots: fills the slots with `FillSlots`, so it inherits the corrected plane search.
- AttachCrtc: prepares the slots with `PrepareSlots`, so it inherits the corrected plane search.
- ConfigureLit: attaches the CRTC with `AttachCrtc`, so it inherits the corrected plane search.
- ConfigureConnector: configures a lit connector with `ConfigureLit`, so it inherits the corrected plane search.
- ConfiguredFrame: is stated of the connector step (`StepFrame`) that `ConfigureConnector` takes, whose slots come from the corrected plane search.
- ConfigureConnectors: runs `ConfigureConnector` over every connector, so it inherits the corrected plane search.
- CalculateDrmState: runs `ConfigureConnectors`, so its settled result, and every plane being reset or used by a lit connector, hold of the corrected plane search; as written a second fitting plane strands the first with its framebuffer, and `reset_planes` does not reset it.
- Drm.EventQueue.Event: decodes with the corrected `EventStepOf`, which refuses a zero-length event header with `InvalidRead`; as written src/video/drm.rs:549-583 accepts it and the read loop never ends (`ZeroLengthEventLoopsForever`, see Findings).
- Drm.RefreshRateMillihz: requires non-zero `htotal` and `vtotal`, and so does `Drm.ToBackend`; src/video/drm.rs:968-972 divides by them unguarded, so a mode with a zero total panics there, and that panic is not modelled.
- MetalTransaction: the possible planes of a CRTC are kept in a hash map in src/backends/metal/video.rs:147, whose order is unspecified; the model fixes one order, so "the first fitting plane" of `PickPlane` is first in that order.

## Findings

| source | as written | input that shows it | evidently intended | confidence | as-written member | corrected member |
|---|---|---|---|---|---|---|
| src/video/drm.rs:549-583 | the read loop advances by the header's length, accepting a length of 0 | an 8-byte event header of type 0 and length 0 | reject a header of length 0 with `InvalidRead`, so every iteration consumes bytes | low (the kernel is not expected to write such a header); not executed | `Drm.EventStepAsWritten`, `Drm.ZeroLengthEventLoopsForever` | `Drm.EventStepOf` |
| src/backends/metal/transaction.rs:376-388 | the loop that fills an empty primary or cursor slot has no `break`: every fitting plane is taken out of the unused set and the slot ends with the last one | a CRTC with two unused primary planes that both support the connector's format | take the first fitting plane and stop, as the plane search in src/backends/metal/video.rs:895-906 does | medium; not executed | `MetalTransaction.FillAsWritten`, `MetalTransaction.FillAsWrittenStrandsAPlane` | `MetalTransaction.PickPlane`, `MetalTransaction.FillSlot` |
| src/gfx_apis/vulkan/bo_allocator.rs:686-691 | the check refuses a usage only if it contains every flag outside `WRITE` and `RENDERING` at once | the usage `BO_USE_WRITE` with `BO_USE_LINEAR` | refuse any flag outside `WRITE` and `RENDERING` (`intersects`) | medium; not executed | `VulkanBoAllocator.ValidateUsageAsWritten`, `VulkanBoAllocator.ValidateUsageAsWrittenAcceptsLinear` | `VulkanBoAllocator.ValidateUsage` |
| src/gfx_apis/vulkan/transfer.rs:126-134 | the image and the staging shell are marked busy before a download of undefined contents is refused, and the refusal does not clear the marks | a download from a freshly created shm texture, then an upload into it | check for undefined contents before marking, so a refused transfer changes nothing | medium; not executed | `VulkanTransfer.AcceptTransferAsWritten`, `VulkanTransfer.UndefinedDownloadWedgesImage` | `VulkanTransfer.AcceptTransfer`, `VulkanTransfer.UndefinedDownloadLeavesImageFree` |
| src/gfx_apis/vulkan/transfer.rs:563-572 | after a failed host copy completes the transfer with the error, the function carries on as if the copy had succeeded | a download whose host copy job fails | return after reporting the failure | medium; not executed | `VulkanTransfer.CompleteAsyncHostCopyAsWritten`, `VulkanTransfer.HostCopyFailurePanicsAsWritten` | `VulkanTransfer.CompleteAsyncHostCopy`, `VulkanTransfer.HostCopyFailureReportedOnce` |
| src/gfx_apis/vulkan/shm_image.rs:101-121 | the staging size `total_size` and every copy offset from it are `u32` sums over the damage rectangles, which may overlap, so the sum wraps around while the host copy keeps writing at unbounded offsets | two damage rectangles that each cover a 32768 x 24576 image of 4 bytes per pixel, on a device that admits that size (a 16384 x 16384 image needs five) | compute the staging size and the offsets in `u64` (`DeviceSize`), so the staging buffer holds every packed copy | low (a release build wraps, a debug build panics); not executed | `VulkanShmImage.PackedOfAsWritten`, `VulkanShmImage.PackedSizeWrapsAsWritten` | `VulkanShmImage.PackedOf`, `VulkanShmImage.PackedOfLayout` |
| src/edid.rs:626-648 | every established timing flag is tested on the first byte, so bytes 1 and 2 are never read and each bit of byte 0 stands for up to three timings | the three bytes 0x80 0x00 0x00 (only 720x400 at 70 Hz) | test the flags of 800x600 at 72 Hz onwards on byte 1 and 1152x870 at 75 Hz on byte 2, as section 3.8 of VESA E-EDID 1.4 lays them out | high; not executed | `EdidFields.EstablishedTimingsAsWritten`, `EdidFields.EstablishedTimingsAsWrittenConflates` | `EdidFields.EstablishedTimingsOf`, `EdidFields.EstablishedTimingsSeparate` |
| src/edid.rs:689-693 | a white point's gamma is tested for 0xff on its fifth byte but its value is taken from the byte after it | a colour point descriptor whose first white point stores gamma 0x78 followed by a second white point index 0 | take the value from the byte that was tested | high; not executed | `EdidDescriptors.ColorPointAsWritten`, `EdidDescriptors.ColorPointGammaAsWrittenMisread` | `EdidDescriptors.ColorPointOf`, `EdidDescriptors.ParseColorPoint` |
| src/edid.rs:667-679 | the standard timing identifier descriptor decodes every slot, so the unused pair (1, 1) reads as a 256-pixel timing, unlike the base block's slots at src/edid.rs:711-716 | a 0xfa descriptor whose first slot holds 0x01 0x01 | leave the pair (1, 1) empty, as the base block's standard timings do | medium; not executed | `EdidDescriptors.StandardTimings2AsWritten`, `EdidDescriptors.StandardTimings2AsWrittenReadsUnused` | `EdidDescriptors.ParseStandardTimings2`, `EdidDescriptors.StandardTimings2Empty` |
| src/edid.rs:1143-1147 | `parse` stores the error of a failed extension read and loops again, but a failed `read_n` (src/edid.rs:452-460) does not move the cursor, so with 1 to 127 bytes after the last whole block the loop never ends | a 129-byte blob whose first 128 bytes are a valid base block | stop the loop once an extension read fails without consuming bytes, storing that error once | low (kernel EDID blobs are whole blocks); not executed | `EdidParser.ExtensionWalkAsWritten`, `EdidParser.ShortTailNeverEmptiesAsWritten` | `EdidParser.Parser.ParseExtensions`, `EdidParser.ExtensionsAtAccounts` |

# i3 and dmenu: a verified model

This project models the logic of the i3 window manager and of dmenu, as vendored under `custom/`, in Dafny, and proves
properties of it. `dafny verify dfyconfig.toml` checks everything.

| file | what it models |
|---|---|
| `Lists.dfy`, `Text.dfy`, `TailQueue.dfy` | the tail queues of `queue.h`: pointers that refine sequences, and what the queue operations do to sequences |
| `Tree.dfy` | the container tree: the heap of containers, its links as a value, and well-formedness |
| `Attach.dfy`, `AttachLayout.dfy`, `Order.dfy` | attaching, detaching and renaming; the order of workspaces and dock clients |
| `Focus.dfy`, `FocusOps.dfy`, `NextFocused.dfy`, `FocusRuns.dfy` | input focus, the walks that follow the focus lists, and both in sequence |
| `Swap.dfy`, `SwapFocus.dfy`, `SwapOps.dfy`, `SwapTwice.dfy` | `con_swap`, where the focus is afterwards, and two swaps |
| `SwapUrgency.dfy`, `SwapFailures.dfy` | what `con_swap` does to cached urgency, and swaps that go wrong |
| `Percent.dfy` | shares of split containers and their resizing |
| `Urgency.dfy`, `Fullscreen.dfy`, `Transient.dfy` | cached urgency, fullscreen modes, transient windows |
| `Gaps.dfy` (module `GapSizes`) | the gaps command |
| `Bindings.dfy` | key and button bindings |
| `Assignments.dfy` | re-entrant assignments |
| `ParseString.dfy` | the string scanner of the command parser |
| `MatchList.dfy`, `Pages.dfy`, `Menu.dfy` | dmenu's matching, paging and keys |
| `Utf8.dfy` | dmenu's UTF-8 decoder, against RFC 3629 |

How the container tree is modelled: a `Con` is a class whose lists are sequences. The state of a set `s` of containers is
compared with a value, the `Forest`: `LinksAre(s, f)` says that the heap carries the links `f`. Methods take the value as a
ghost argument and promise the value of the new state as a function of the old one; theorems about trees are lemmas about
these functions. `WellFormed(f, loose, r)` is the invariant: every container is listed once in the `nodes` or `floating` list
and once in the `focus` list of the parent it points to, parents rank higher than children (`r` is a witness that there is no
cycle), and each kind of container hangs where it should. Containers in `loose` are detached and still point to their old
parent. `Shaped` is the same without the last condition.

Where the code reads a fact about its surroundings, the model takes it as an argument or a precondition: the active workspace is
among those of the outputs, the focused container is not the root, a container with fullscreen mode has a workspace, no
workspace is in global fullscreen mode, an output with a dock client has a content container.

Some properties hold only under a condition, and are stated with the exact one. con_swap keeps every kind of container where it
belongs if and only if it takes no content container with workspaces away from its output (`Swap.SwapTyped`, and
`SwapFailures.SwapMisplacesWorkspace` for a swap that does). It keeps the cached urgency right unless the container focused
again is split and urgent and comes under a parent that was not urgent (`SwapUrgency.SwapKeepsUrgency`,
`SwapFailures.SwapMissesFlag`), and it exchanges two fullscreen modes except that of a global one and one for an output, which
are exchanged only if the first container is the one for the output and the search on its new workspace, with the second one in
that mode too, does not find the second (`Fullscreen.ModesExchanged`, `SwapFailures.SwapLosesMode`). The page of dmenu shows its
selection if and only if the page width is not negative (`Pages.VisibleNeedsRoom`). The transient walk finds a target exactly
when it is met within the number of counted windows, which is weaker than being on the chain when windows, such as those of dock
clients, are not counted (`Transient.ConFindTransientForWindow`, `Transient.TargetMissed`). A quoted string is parsed back if
and only if it is not empty (`ParseString.RoundTrip`). A new workspace is within the bounds of the gaps if and only if its
assignment is acceptable (`GapSizes.AssignedBounded`, `GapSizes.NegativePreset`), and it is within the bound that counts its
negative inner gap only under the condition of `GapSizes.StrongUpdated` (`GapSizes.NegativeInnerNotCounted` for a run of
commands that breaks it).

## Model

| member | source | states |
|---|---|---|
| TailQueue.Init | custom/i3/include/queue.h:360-364 | An initialised head is the empty queue. |
| TailQueue.Prev | custom/i3/include/queue.h:342-343 | TAILQ_PREV yields the element before, or NULL for the first one. |
| TailQueue.InsertHead | custom/i3/include/queue.h:366-374 | The pointers then hold the sequence with the element in front. |
| TailQueue.InsertTail | custom/i3/include/queue.h:376-382 | ... with the element at the end. |
| TailQueue.InsertAfterElm | custom/i3/include/queue.h:384-392 | ... with the element directly behind the given one. |
| TailQueue.InsertBeforeElm | custom/i3/include/queue.h:394-400 | ... with the element directly before the given one. |
| TailQueue.RemoveElm | custom/i3/include/queue.h:402-411 | ... without the element, whatever its position. |
| TailQueue.SwapNeighbours | custom/i3/include/queue.h:426-437 | TAILQ_SWAP exchanges two neighbours, at either end of the queue too. |
| Lists.SwapNextTrades | custom/i3/include/queue.h:426-437 | On sequences TAILQ_SWAP is the transposition of the two elements. |
| Lists.StepsTrade | custom/i3/src/con.c:2624-2648 | Two removals and two insertions next to the remembered predecessors are the transposition of two elements that are not adjacent. |
| Tree.ListsGoDown | custom/i3/src/con.c:100-218 | In a well-formed tree every listed child ranks below its parent: the lists contain no cycle. |
| Tree.WithinLinear | custom/i3/src/con.c:734-744 | Of two ancestors of a container one contains the other. |
| Tree.SiblingsApart | custom/i3/src/con.c:734-744 | Siblings share no descendant. |
| Tree.DetachWellFormed | custom/i3/src/con.c:234-243 | Detaching keeps every remaining container listed exactly once in `nodes` or `floating` and once in `focus`, and every parent pointer right. |
| Attach.WorkspacePosition | custom/i3/src/con.c:109-134 | The walk over the siblings ends before the first workspace that is greater, named ones counting as greatest. |
| Attach.DockPosition | custom/i3/src/con.c:137-158 | A dock client goes before the first one with a greater class and instance. |
| Attach.TilingPosition | custom/i3/src/con.c:164-207 | A tiling container goes behind the first tiling one of the focus list; outputs and empty lists append. |
| Attach.ConAttach | custom/i3/src/con.c:100-218 | Parent pointer, the one list that fits the kind, and the tail of the focus list change; nothing else does. |
| AttachLayout.ConAttachLayout | custom/i3/src/con.c:181-213 | With a workspace_layout a window goes into a new split container of that layout, which is put behind the first tiling container of the focus list and gets its share. |
| AttachLayout.WrappedWellFormed | custom/i3/src/workspace.c:996-1020 | ... and the tree is well formed again. |
| Attach.ConDetach | custom/i3/src/con.c:234-243 | The two lists of the parent lose the container, whose own parent pointer stays. |
| Attach.TreeAttachable | custom/i3/src/con.c:100-218 | In a tree the focus list yields a tiled child to attach behind, so only the windows of dock clients and the given previous container are up to the caller. |
| Attach.AttachShaped | custom/i3/src/con.c:100-218 | Attaching a detached container anywhere outside its own subtree gives a tree again. |
| Attach.AttachWellFormed | custom/i3/src/con.c:100-218 | ... in which every kind of container hangs where it belongs. |
| Attach.AttachWorkspace | custom/i3/src/con.c:109-134 | The list of workspaces is the ordered list with one more arrival. |
| Attach.RenameWorkspace | custom/i3/src/commands.c:2183-2197 | Renaming, as detach and attach under the new number, is the reordering step of the ordered list. |
| Attach.LeaveNumbered | custom/i3/src/con.c:234-243 | Detaching a workspace is a departure from the ordered list. |
| Attach.AttachDockClient | custom/i3/src/con.c:137-158 | The list of dock clients is the ordered list with one more arrival. |
| Attach.ArriveDocked | custom/i3/src/con.c:137-158 | Attaching a dock client is an arrival in the ordered list of dock clients. |
| Attach.LeaveDocked | custom/i3/src/con.c:234-243 | Detaching one is a departure from it. |
| Attach.AttachTiling | custom/i3/src/con.c:164-207 | A window or split container stands directly behind the first tiling container of the focus list, or the given one, and comes last in the focus list. |
| Attach.AttachFloating | custom/i3/src/con.c:161-163 | A floating container comes last among the floating ones and in the focus list. |
| Order.RunArranged | custom/i3/src/con.c:109-158 | From any list in order, any run of arrivals, departures and renames keeps it sorted, equal keys in arrival order. |
| Order.WorkspaceOrder | custom/i3/src/con.c:109-134 | Numbered workspaces stand in non-decreasing order before all named ones; equal numbers in arrival order. |
| Order.DockOrder | custom/i3/src/con.c:137-158 | Dock clients stay sorted by class and then instance, equal ones in arrival order. |
| Order.DockStrictWeak | custom/i3/libi3/safewrappers.c:124-135 | The nullable, case-insensitive comparison of class and instance is a strict weak order. |
| Order.CmpMeans | custom/i3/libi3/safewrappers.c:124-135 | The first character in which the texts differ, but for case, decides, or the end of the shorter one. |
| Order.DockMeans | custom/i3/src/con.c:137-158 | No name before any name, the class before the instance. |
| FocusOps.ConFocus | custom/i3/src/con.c:250-274 | The container and each ancestor move to the front of their focus lists, `focused` is set, the urgency of a leaf is reset; every cached flag follows its leaves and no other leaf changes. |
| Focus.FocusUpAt | custom/i3/src/con.c:250-262 | Only the lists of ancestors change, each by moving the child on the way to the front. |
| FocusOps.FocusUpShaped | custom/i3/src/con.c:250-262 | Focusing keeps the tree well formed. |
| Focus.RecencyOrder | custom/i3/src/con.c:250-274 | After any run of con_focus every focus list is ordered by the most recent focus into each child, never-focused children last in their old order. |
| Focus.FocusedIsFound | custom/i3/src/con.c:410-427 | After any run con_descend_focused from every ancestor of the focused container returns it, and con_is_hidden is false for it. |
| Focus.SiblingsHidden | custom/i3/src/con.c:410-427 | ... while below a stacked or tabbed parent every sibling of a container on the way up from the focused one is hidden. |
| Focus.HiddenMeans | custom/i3/src/con.c:410-427 | Hidden is exactly what has, from itself up to below the workspace, a container with a stacked or tabbed parent whose focus list does not begin with it. |
| Focus.DescendPath | custom/i3/src/con.c:1698-1704 | The walk down the first entries ends at the focused container or at one without children, and passes neither before. |
| NextFocused.ConDescendFocused | custom/i3/src/con.c:1698-1704 | The loop follows first entries until the focused container or a leaf. |
| NextFocused.ConIsHidden | custom/i3/src/con.c:410-427 | True exactly when some stacked or tabbed ancestor below the workspace shows another child. |
| NextFocused.ConNextFocused | custom/i3/src/con.c:1656-1690 | The walk for tiling, floating and dock containers. |
| NextFocused.OutputGetContent | custom/i3/src/output.c:16-26 | The first child of the output that is an ordinary container. |
| NextFocused.NextIsOutside | custom/i3/src/con.c:1656-1690 | The answer is never the container or anything inside it. |
| NextFocused.DockNextIsOutside | custom/i3/src/con.c:1656-1661 | No descent in the content container enters the dock area. |
| NextFocused.DockAnswer | custom/i3/src/con.c:1656-1661 | So the answer for a dock client is never the client or inside it. |
| NextFocused.NextIsPredicted | custom/i3/src/con.c:1666-1690 | With the focus on or inside the container, detaching it makes con_descend_focused from its parent return exactly the predicted one. |
| FocusRuns.FocusAndFind | custom/i3/src/con.c:250-274 | The code in sequence: after con_focus on any list of containers of a tree, con_descend_focused from any ancestor finds the last one, con_is_hidden denies, all lists are by recency, and the cached flags and those of the workspaces are still right. |
| FocusRuns.PredictAndDetach | custom/i3/src/con.c:1656-1690 | The code in sequence: con_next_focused, con_detach and con_descend_focused from the parent agree, for floating containers too. |
| FocusRuns.MarkEach | custom/i3/src/con.c:2431-2467 | The code in sequence: after con_set_urgency on any list of leaves every cached flag and every flag of a workspace is still right. |
| FocusRuns.RemoveChild | custom/i3/src/con.c:2211-2253 | The code in sequence: con_detach and con_on_remove_child leave every cached flag right, and only an emptied parent is closed. |
| FocusOps.SetLeafConsistent | custom/i3/src/con.c:2431-2467 | All of con_set_urgency on a leaf, the flag of its workspace included, keeps the cached flags right. |
| FocusOps.SetLeafFlags | custom/i3/src/con.c:2431-2467 | Of the leaves con_set_urgency changes only the given one, and that unless it is focused and would be marked. |
| FocusOps.SetLeafMarksWorkspace | custom/i3/src/con.c:2457-2461 | After con_set_urgency on a leaf, whatever the flag of its workspace was, it is set exactly if some urgent leaf is on the workspace. |
| FocusOps.SetLeafKeeps | custom/i3/src/con.c:2431-2467 | ... and the flags of the other workspaces stay right. |
| FocusOps.ResetUpheld | custom/i3/src/con.c:268-272 | The same for the reset of an urgent leaf in con_focus. |
| FocusOps.ClearedConsistent | custom/i3/src/con.c:264-273 | The reset of urgency in con_focus keeps every cached flag equal to its recomputation. |
| SwapOps.SwapInNodes | custom/i3/src/con.c:2624-2650 | SWAP_CONS_IN_TREE on nodes_head exchanges two positions: adjacent, in one list, or in two. |
| SwapOps.SwapInFocus | custom/i3/src/con.c:2624-2651 | The same on focus_head. |
| SwapOps.SwapLinks | custom/i3/src/con.c:2624-2652 | Before focus is restored exactly the two positions in both kinds of lists and the two parents are exchanged. |
| SwapOps.RestoreFocus | custom/i3/src/con.c:2612-2622 | Which container is focused again, in all four cases. |
| SwapFocus.SwapPassesFocus | custom/i3/src/con.c:2612-2622 | Focus outside both containers stays, focus on the workspace of both stays, and focus inside one of them passes to the other if that is on another workspace. |
| SwapFocus.SwapKeepsWorkspace | custom/i3/src/con.c:2612-2668 | So the focus is, after the exchange, on the workspace that it was on, if both containers are on workspaces. |
| SwapOps.ConSwap | custom/i3/src/con.c:2587-2701 | False, with nothing changed, exactly for other types, the same or nested containers; otherwise positions, rects, floating flags and percentages are exchanged, the focus restored and the urgency flags refreshed. |
| Swap.SwapShaped | custom/i3/src/con.c:2624-2652 | The exchange keeps the tree a tree. |
| Swap.SwapTyped | custom/i3/src/con.c:2587-2652 | ... in which every kind hangs where it belongs if and only if the swap does not take a content container with workspaces away from its output. |
| SwapFailures.SwapMisplacesWorkspace | custom/i3/src/con.c:2587-2652 | It does take it away for a concrete output with a workspace and a dock client: the tree is then no longer well formed. |
| SwapOps.ResultShaped | custom/i3/src/con.c:2587-2668 | So it is after the focus is restored. |
| SwapTwice.SwapBack | custom/i3/src/con.c:2587-2701 | A second swap restores all `nodes` lists and parents, whatever was focused in between. |
| SwapTwice.SharesBack | custom/i3/src/con.c:2664-2692 | ... and all percentages, when those under both parents were positive and summed to 1. |
| SwapTwice.SwapAndBack | custom/i3/src/con.c:2587-2701 | The code run twice: parents, `nodes` and floating lists, rects, floating flags and, if normalised, percentages are restored. |
| SwapUrgency.SwapKeepsUrgency | custom/i3/src/con.c:2666-2672 | Right cached flags stay right if and only if not one of the two is focused again, split and urgent, with a new parent below the workspace that was not urgent: con_set_urgency then returns early. |
| SwapUrgency.SwapAlmost | custom/i3/src/con.c:2624-2652 | After the exchange of places, before any refresh, the caches are right apart from the leaves inside the two. |
| SwapUrgency.AlmostWalked | custom/i3/src/con.c:2401-2425 | Walking up from one of them with its own flag makes its leaves count again. |
| SwapFailures.SwapMissesFlag | custom/i3/src/con.c:2431-2435 | A concrete tree in which the swap leaves the flag of the new parent wrong. |
| SwapOps.FixedKept | custom/i3/src/con.c:2664-2692 | The exchanged percentages keep the shares along both lists, so con_fix_percent sees the old ones. |
| Percent.ConFixPercent | custom/i3/src/con.c:1144-1184 | The loops leave the shares of the specification. |
| Percent.FixedSum | custom/i3/src/con.c:1144-1184 | All shares become positive and sum to 1. |
| Percent.FixedProportions | custom/i3/src/con.c:1144-1184 | Shares that were positive keep their ratios. |
| Percent.FixedNormalised | custom/i3/src/con.c:1144-1184 | Normalised shares stay. |
| Percent.FixedIdempotent | custom/i3/src/con.c:1144-1184 | A second call changes nothing. |
| Percent.NewShare | custom/i3/src/con.c:1144-1184 | One child without a share among n others ends with 1 / (n + 1). |
| Percent.CmdResizeTilingWidthHeight | custom/i3/src/commands.c:505-574 | Refused exactly when a child would get less than a pixel, and then only missing shares are set; otherwise one child grows at the expense of the others. |
| Percent.GrownKeeps | custom/i3/src/commands.c:536-571 | A resize that is not refused keeps the sum and keeps every share positive. |
| Percent.GrownBy | custom/i3/src/commands.c:536-571 | The child gains exactly what was asked for, and all others lose the same. |
| Percent.RefusedMeans | custom/i3/src/commands.c:536-560 | Refused is exactly what would leave a shrinking child with less than a pixel. |
| Percent.DefaultsEven | custom/i3/src/commands.c:523-531 | Children without shares get even ones. |
| Urgency.ConHasUrgentChild | custom/i3/src/con.c:2378-2394 | The recursion over the tiled children. |
| Urgency.ConUpdateParentsUrgency | custom/i3/src/con.c:2401-2425 | The walk over the parents up to workspace or dock area. |
| Urgency.UpdateParentsAt | custom/i3/src/con.c:2401-2425 | Each visited parent is set, or cleared unless a leaf below is still urgent; no other flag changes. |
| Urgency.UrgentLeaf | custom/i3/src/con.c:2378-2394 | Below a workspace that is an urgent leaf anywhere inside the container. |
| Urgency.GetUrgencyFlag | custom/i3/src/workspace.c:916-931 | True exactly when some container below, tiled or floating, carries the flag. |
| Urgency.WorkspaceFlag | custom/i3/src/workspace.c:938-946 | With right caches the recomputed flag of a workspace says whether an urgent leaf is anywhere on it. |
| Urgency.ConSetUrgency | custom/i3/src/con.c:2431-2467 | Exactly the flags afterwards: of the container, of its parents and of its workspace; nothing when the focused container would be marked. |
| Urgency.LeafChangeConsistent | custom/i3/src/con.c:2431-2467 | Setting the urgency of a leaf keeps every cached flag equal to its recomputation. |
| Urgency.ConOnRemoveChild | custom/i3/src/con.c:2211-2253 | The flags after a child was removed, and when the container is closed. |
| Urgency.RemoveChildConsistent | custom/i3/src/con.c:2211-2253 | Losing children, or all of them, and then con_on_remove_child keep every cached flag right. |
| Urgency.DetachThinner | custom/i3/src/con.c:234-243 | con_detach is such a loss of a child. |
| Urgency.ConGetWorkspace | custom/i3/src/con.c:547-553 | The nearest workspace upwards. |
| Urgency.WorkspaceNearest | custom/i3/src/con.c:547-553 | No workspace stands between the container and the one returned, and NULL means that there is none above. |
| Fullscreen.ConGetFullscreenCon | custom/i3/src/con.c:599-639 | The queue finds the first strict descendant with the mode in breadth-first order, tiled children before floating ones. |
| Fullscreen.SearchNearest | custom/i3/src/con.c:599-639 | Its depth is minimal, and the answer is NULL exactly when no strict descendant has the mode. |
| Fullscreen.SearchFirst | custom/i3/src/con.c:624-635 | Of the children of one container the first one with the mode is found, tiled ones before floating ones. |
| Fullscreen.LevelDepth | custom/i3/src/con.c:599-639 | Level k of the breadth-first search holds exactly the descendants k steps below. |
| Fullscreen.NextQueue | custom/i3/src/con.c:624-635 | The queue always holds the rest of a level and the children of its beginning. |
| Fullscreen.ConEnableFullscreen | custom/i3/src/con.c:1248-1292 | The container in the way gives up its mode and the container takes the new one; workspaces and repeated requests change nothing. |
| Fullscreen.ConDisableFullscreen | custom/i3/src/con.c:1299-1313 | The mode is reset, except that of a workspace. |
| Fullscreen.ConToggleFullscreen | custom/i3/src/con.c:1192-1206 | Enables a container without mode and disables any other. |
| Fullscreen.ToggleTurns | custom/i3/src/con.c:1192-1206 | Toggling turns none to the mode and any mode to none, and so does toggling twice back. |
| Fullscreen.OthersKeep | custom/i3/src/con.c:1269-1276 | Whatever else loses its mode was global, or fullscreen on the workspace of the container. |
| Fullscreen.WorkspacesKeep | custom/i3/src/con.c:1249-1252 | No command changes the mode of a workspace. |
| Fullscreen.SwapModes | custom/i3/src/con.c:2674-2686 | con_swap hands the mode of the first container to the second and then the old mode of the second to the first. |
| Fullscreen.ModesExchanged | custom/i3/src/con.c:2674-2686 | Decided by the modes and the tree before the call: the two modes are exchanged, if and only if not the first is global and the second fullscreen on its output, nor the other way round while the search on the workspace of the first, with the second in the mode for its output, finds the second. |
| Fullscreen.EqualModesStay | custom/i3/src/con.c:2674-2686 | Equal modes stay, and so do all others. |
| SwapFailures.SwapLosesMode | custom/i3/src/con.c:2674-2686 | Two siblings of a concrete tree, one global and one fullscreen on its output: whichever is named first, swapping them leaves the second one without mode. |
| Fullscreen.EnabledAlone | custom/i3/src/con.c:1248-1292 | After enabling, no other container below the root is in global mode. |
| Fullscreen.EnabledAloneOnWorkspace | custom/i3/src/con.c:1269-1276 | While nothing is global, the enabled container is the only one of its workspace that is fullscreen on the output, if there was at most one. |
| Fullscreen.RunKeepsOne | custom/i3/src/con.c:1192-1313 | Every sequence of these commands keeps at most one global container. |
| Fullscreen.PerformAll | custom/i3/src/con.c:1192-1313 | The code in sequence: enabling, disabling and toggling over any list leaves the modes of the specification, at most one of them global below the root. |
| Transient.ConByWindowId | custom/i3/src/con.c:752-760 | The first container holding the window, or NULL. |
| Transient.ByIdFirst | custom/i3/src/con.c:752-760 | No container before it in the list holds the window. |
| Transient.ConNumWindows | custom/i3/src/con.c:1116-1136 | The recursive count, a managed window hiding what is below it. |
| Transient.NumWindowsMeans | custom/i3/src/con.c:1116-1136 | In a tree the number of managed windows that have none above them. |
| Transient.AllCounted | custom/i3/src/con.c:1116-1136 | Windows that are managed, in the tree and not below another window are all counted. |
| Transient.ConFindTransientForWindow | custom/i3/src/con.c:824-851 | At most con_num_windows + 1 rounds on any graph; true exactly when the target is met within that bound, hence exactly when it is on the chain, if all window holders but one are counted. |
| Transient.TargetMissed | custom/i3/src/con.c:824-851 | A concrete tree with two dock clients in which the target is on the chain and the walk gives up before. |
| Transient.HitWithinHolders | custom/i3/src/con.c:824-851 | Up to the first hit no container repeats, so the hit lies within the number of window holders. |
| Transient.NothingAfterLoop | custom/i3/src/con.c:839-843 | A window transient for itself ends the chain. |
| GapSizes.GapsUpdate | custom/i3/src/commands.c:2429-2507 | One update: the exact new global gap and that of every workspace; an invalid mode changes nothing. |
| GapSizes.ChangedValue | custom/i3/src/commands.c:2433-2470 | The new value for every scope and mode, clamped to the minimum. |
| GapSizes.LocalValue | custom/i3/src/commands.c:2433-2470 | A local update adds to the gap drawn on the workspace, takes from it, sets it, or turns it on and off, down to its least value; other workspaces and the configuration stay. |
| GapSizes.GlobalValue | custom/i3/src/commands.c:2433-2500 | A global one does so to the global gap; setting and toggling take away the own gap of every workspace. |
| GapSizes.LocalTwice | custom/i3/src/commands.c:2433-2470 | Subtracting what was added and toggling twice restore the gap. |
| GapSizes.SidesMean | custom/i3/src/commands.c:2528-2544 | The sides of the kinds of commands. |
| GapSizes.FixAll | custom/i3/src/commands.c:2472-2497 | The loops over outputs and workspaces reset or clamp every workspace once. |
| GapSizes.InnerUpdate | custom/i3/src/commands.c:2429-2507 | Updating inner gaps keeps inner and inner + ws.inner non-negative. |
| GapSizes.SideUpdate | custom/i3/src/commands.c:2429-2507 | Updating an outer gap keeps its two bounds. |
| GapSizes.GlobalSideUpdate | custom/i3/src/commands.c:2472-2500 | A global update of an outer gap establishes its bounds whatever they were. |
| GapSizes.UpdatesCompose | custom/i3/src/commands.c:2528-2544 | Updates of different outer gaps do not influence each other. |
| GapSizes.CmdGaps | custom/i3/src/commands.c:2513-2574 | Exactly the sides of the command are updated; after inner gaps all four sides are re-clamped; a failing command changes nothing. |
| GapSizes.CommandKeepsBounds | custom/i3/src/commands.c:2513-2574 | Every successful command keeps all bounds for all workspaces. |
| GapSizes.AssignedBounded | custom/i3/src/gaps.c:124-159 | The gaps of a new workspace are within the bounds if and only if no assigned inner gap is negative and no assigned outer gap takes back more than the inner gap gives. |
| GapSizes.AssignedDrawn | custom/i3/src/gaps.c:124-159 | A new workspace is drawn with the assigned gaps, and else with the global ones. |
| GapSizes.NewWorkspaceBounded | custom/i3/src/gaps.c:124-141 | Without an assignment they always are. |
| GapSizes.NegativePreset | custom/i3/src/gaps.c:124-159 | A negative assigned inner gap does break the bounds. |
| GapSizes.NonNegativeAcceptable | custom/i3/src/gaps.c:124-159 | Assignments without negative gaps are acceptable at any time of any history. |
| GapSizes.CommandedGlobal | custom/i3/src/commands.c:2513-2574 | The global gaps after a command do not depend on the workspaces. |
| GapSizes.History | custom/i3/src/commands.c:2513-2574 | From all zero every history of commands and new workspaces, whose assignments are acceptable when they are used, keeps: inner >= 0, inner + ws.inner >= 0, s + inner >= 0, s + ws.s + inner + max(0, ws.inner) >= 0. |
| GapSizes.StrongUpdated | custom/i3/src/commands.c:2429-2507 | Exactly when the stronger bound, with ws.inner instead of max(0, ws.inner), holds after an update of outer gaps: a local one establishes it; a global one does unless ws.inner is negative and the clamped value and the gap of the workspace do not make up for it. |
| GapSizes.NegativeInnerNotCounted | custom/i3/src/commands.c:2513-2574 | The code in sequence: from all zero, three commands lead to a workspace outside the stronger bound. |
| MatchList.AppendItem | custom/dmenu/dmenu.c:67-78 | Appending to a linked list, from any stale links of the item. |
| MatchList.StrStr | custom/dmenu/dmenu.c:114-130 | Whether the text contains the token, without regard to case under -i. |
| MatchList.ContainsMeans | custom/dmenu/dmenu.c:114-130 | Contained is what some part of the text is the same as. |
| MatchList.CaseIgnored | custom/dmenu/dmenu.c:114-130 | Under -i the same are equal characters and the two cases of a letter, and nothing else. |
| MatchList.Tokenize | custom/dmenu/dmenu.c:240-244 | The blank-separated tokens of the input. |
| MatchList.TokensAreWords | custom/dmenu/dmenu.c:240-244 | Tokens are non-empty and without blanks. |
| MatchList.JoinedTokens | custom/dmenu/dmenu.c:240-244 | Words joined by blanks are the tokens of the text. |
| MatchList.Classify | custom/dmenu/dmenu.c:250-261 | Which of the three lists an item goes to, if any. |
| MatchList.BuildMatches | custom/dmenu/dmenu.c:230-278 | From any links whatever: a doubly linked list from `matches` to `matchend` of exactly the specified sequence. |
| MatchList.MatchMembers | custom/dmenu/dmenu.c:250-254 | The matches are exactly the items that contain all tokens. |
| MatchList.MatchOrder | custom/dmenu/dmenu.c:255-278 | Each is listed once: exact matches, then prefixes, then the others, each in input order. |
| MatchList.MatchRanks | custom/dmenu/dmenu.c:255-278 | The order told from the texts: what equals the input first, then what begins with the first token, then the rest, each as in the input; without tokens the order of the input. |
| Menu.Menu.CalcOffsets | custom/dmenu/dmenu.c:80-96 | `next` and `prev` are the beginnings of the pages packed forwards and backwards from `curr`. |
| Pages.FwdFits | custom/dmenu/dmenu.c:90-92 | A page holds what fits, and the next item does not fit. |
| Pages.BwdFits | custom/dmenu/dmenu.c:93-95 | The same backwards. |
| Pages.BackwardImpliesForward | custom/dmenu/dmenu.c:90-95 | The page found backwards from c, packed forwards, reaches c again; every page shows at least one item. |
| Pages.MoveKeepsVisible | custom/dmenu/dmenu.c:431-515 | Every navigation key keeps curr <= sel < next; End shows and selects the last item. |
| Pages.AfterAll | custom/dmenu/dmenu.c:431-515 | So does every sequence of keys. |
| Pages.VisibleNeedsRoom | custom/dmenu/dmenu.c:85-92 | A fresh page shows its first item if and only if the page width is not negative. |
| Pages.DownReaches | custom/dmenu/dmenu.c:509-515 | k times Down selects the item k places on, or the last one. |
| Pages.UpReaches | custom/dmenu/dmenu.c:469-475 | k times Up selects the item k places before, or the first one. |
| Pages.UpUndoesDown | custom/dmenu/dmenu.c:469-515 | Up undoes what Down has selected, and Down what Up has. |
| Pages.NextReaches | custom/dmenu/dmenu.c:476-482 | Next shows the page that begins where this one ends, and repeated it shows the last page. |
| Pages.PriorReaches | custom/dmenu/dmenu.c:451-489 | Prior shows an earlier page from where everything up to this page fits; Home selects the first item. |
| Menu.Menu.WidthFits | custom/dmenu/dmenu.c:60-66 | An item takes its width, or the whole page when it is wider. |
| Menu.Menu.Match | custom/dmenu/dmenu.c:279-280 | A new list, all pointers on its first page, all NULL together when nothing matches. |
| Menu.Menu.SettleAtEnd | custom/dmenu/dmenu.c:441-445 | The loop of the End key ends at the first page that shows the last item. |
| Menu.Menu.KeyEnd | custom/dmenu/dmenu.c:431-447 | End: the cursor goes to the end of the input first, then the last page is shown. |
| Menu.Menu.KeyHome | custom/dmenu/dmenu.c:451-459 | Home: the cursor goes to 0 if the first item is selected, otherwise the first page is shown. |
| Menu.Menu.KeyUp | custom/dmenu/dmenu.c:469-475 | Up: the previous item, turning the page back from its first item. |
| Menu.Menu.KeyDown | custom/dmenu/dmenu.c:509-515 | Down: the next item, turning the page after its last item. |
| Menu.Menu.KeyLeft | custom/dmenu/dmenu.c:460-475 | Left: the cursor goes back to where the last character before it begins, or Up when it cannot move. |
| Menu.Menu.KeyRight | custom/dmenu/dmenu.c:500-515 | Right: the cursor goes on to the next boundary, or Down at the end of the input. |
| Menu.Menu.KeyNext | custom/dmenu/dmenu.c:476-482 | The next page, if there is one. |
| Menu.Menu.KeyPrior | custom/dmenu/dmenu.c:483-489 | The previous page. |
| Menu.Menu.KeyTab | custom/dmenu/dmenu.c:516-523 | Tab takes the selected text, truncated to the buffer, and shows the first page of the new matches. |
| Menu.Menu.TruncatedMeans | custom/dmenu/dmenu.c:516-523 | As much of the selected text as fits into the buffer. |
| Menu.Menu.Insert | custom/dmenu/dmenu.c:283-294 | Text inserted or deleted at the cursor and the first page of a new match; nothing at all when the buffer is full. |
| Menu.Menu.KeyBackSpace | custom/dmenu/dmenu.c:426-430 | Exactly the text back to where the last character before the cursor begins is deleted. |
| Menu.Menu.KeyDelete | custom/dmenu/dmenu.c:420-430 | The cursor goes behind the character at it, and one character is deleted backwards from there. |
| Menu.Menu.DeleteWord | custom/dmenu/dmenu.c:367-372 | Exactly the delimiters before the cursor and then the word before those are deleted. |
| Menu.Menu.NavigationKey | custom/dmenu/dmenu.c:431-515 | Which move each key makes, and where the cursor stands afterwards. |
| Menu.Menu.EditKey | custom/dmenu/dmenu.c:360-430 | The input line and the cursor after each editing key, as a function of those before. |
| Menu.Menu.KeyPress | custom/dmenu/dmenu.c:324-528 | Each key told from the pointers and strings before it: which item is selected, and what the input and the cursor are. |
| Menu.Menu.EditedDeletes | custom/dmenu/dmenu.c:420-430 | Backspace and Delete take away exactly one character: a byte and its continuations. |
| Menu.Menu.EditedKills | custom/dmenu/dmenu.c:356-372 | Ctrl-k, Ctrl-u and Ctrl-w leave what is before, behind, and around the deleted part. |
| Menu.Menu.EditedInserts | custom/dmenu/dmenu.c:283-294 | Typed text stands at the cursor; Tab leaves the selected text. |
| Menu.Menu.NextRune | custom/dmenu/dmenu.c:296-305 | The next position in the direction that is no continuation byte, or the end or beginning of the input. |
| Menu.Menu.MoveWordEdge | custom/dmenu/dmenu.c:307-321 | The cursor moves over delimiters and then over a word, in either direction. |
| Menu.Menu.WordBeforeMeans | custom/dmenu/dmenu.c:307-321 | What is passed backwards is a word and the delimiters behind it, each as far as it reaches. |
| Menu.Menu.WordBehindMeans | custom/dmenu/dmenu.c:307-321 | ... and forwards delimiters and the word behind them. |
| Menu.Menu.Run | custom/dmenu/dmenu.c:324-528 | After any key sequence the list is the matches of the input and the selection is on the visible page. |
| Utf8.Utf8Decode | custom/dmenu/drw.c:13-47 | The decoder agrees with its functional form at every position, reading no byte behind the end. |
| Utf8.Decode | custom/dmenu/drw.c:13-47 | At least one and at most four bytes are consumed; all after the first are continuation bytes. |
| Utf8.LensTable | custom/dmenu/drw.c:16-23 | The table of lengths by the upper five bits. |
| Utf8.DecodeExact | custom/dmenu/drw.c:13-47 | No error exactly on the well-formed sequences of RFC 3629 section 4, and then the scalar value whose section 3 encoding was read. |
| Utf8.DecodeEncode | custom/dmenu/drw.c:13-47 | Decoding inverts encoding whatever follows. |
| Utf8.DecodeAllEncodeAll | custom/dmenu/drw.c:269-307 | Repeated decoding inverts the encoding of every sequence of scalar values. |
| Utf8.EncodeAllHasNoNul | custom/dmenu/drw.c:269-271 | Encoded non-zero characters contain no NUL byte. |
| Utf8.Resynchronises | custom/dmenu/drw.c:269-307 | After any bytes whatever, decoding is in step again at the next byte that is no continuation. |
| Utf8.DecodeText | custom/dmenu/drw.c:269-307 | The loop terminates and visits what repeated decoding gives. |
| ParseString.ParseString | custom/i3/src/commands_parser.c:190-244 | Text and cursor for quoted strings, strings and words; NULL exactly for an empty span; all reads and writes in bounds. |
| ParseString.StepStays | custom/i3/src/commands_parser.c:194-201 | One step of the unescape loop stays aligned with the pairs of the scan loop. |
| ParseString.CopyStays | custom/i3/src/commands_parser.c:226-241 | So the unescape loop never consumes a character behind the scanned span. |
| ParseString.RoundTrip | custom/i3/src/commands_parser.c:190-244 | A quoted, escaped text gives the text back with the cursor on the closing quote if and only if it is not empty. |
| ParseString.PlainRoundTrip | custom/i3/src/commands_parser.c:202-244 | Without quotes an escaped text gives the text back too, if no character of it ends the word or string. |
| Bindings.FilterState | custom/i3/src/bindings.c:327-352 | The state from an X event. |
| Bindings.FilteredHalves | custom/i3/src/bindings.c:327-352 | Modifiers stay except CapsLock; the upper half is exactly one group bit. |
| Bindings.GroupShifted | custom/i3/src/bindings.c:338-350 | Group n of the event is bit n of the upper half. |
| Bindings.OneGroup | custom/i3/src/bindings.c:227-238 | Groups match if and only if the binding names none or that group alone. |
| Bindings.SeveralGroupsNeverTrigger | custom/i3/src/bindings.c:88-103 | A binding with more than one group is never activated. |
| Bindings.FindKeycode | custom/i3/src/bindings.c:243-275 | The search over the keycodes of a binding, by symbol (8 bits) or by keycode. |
| Bindings.HalvesMake | custom/i3/src/bindings.c:227-228 | The group and the modifiers make up the state of an event. |
| Bindings.KeyMeans | custom/i3/src/bindings.c:243-275 | A symbol is looked up among the keycodes, a keycode is compared with that of the binding; one entry must have the modifiers unless they are ignored. |
| Bindings.ResetMarks | custom/i3/src/bindings.c:214-225 | A press first resets the marks of its input type. |
| Bindings.FindPressed | custom/i3/src/bindings.c:227-305 | A press returns the first matching press binding and marks exactly the matching release bindings up to the first one behind it. |
| Bindings.MarkedMarks | custom/i3/src/bindings.c:281-305 | Marked is a matching release binding unless a matching press binding and behind it a matching release binding stand before it. |
| Bindings.FindReleased | custom/i3/src/bindings.c:227-305 | A release returns the first release binding that matches, modifiers being ignored if it is marked. |
| Bindings.MarkedAnswers | custom/i3/src/bindings.c:243-275 | A binding that its press has marked answers to the release of the key with any modifiers, in its group. |
| Bindings.GetBinding | custom/i3/src/bindings.c:210-308 | The first binding that the event is for, and NULL only if there is none: for a press a press binding that it matches; for a release a release binding that it matches, or one that the last press marked, by its key and group. Afterwards exactly what the last press marked is marked. |
| Bindings.PressJustified | custom/i3/src/bindings.c:227-305 | In a list in descending order the binding returned has the greatest mask of all that match. |
| Bindings.SwitchMode | custom/i3/src/bindings.c:639-676 | A switch clears all marks; an unknown mode changes nothing. |
| Bindings.Run | custom/i3/src/bindings.c:210-308 | All this for every event of every run of presses, releases and mode switches. |
| Bindings.PressThenRelease | custom/i3/src/bindings.c:281-303 | In any run: once a press has marked a binding, the release of that key in its group activates it or an earlier one, whatever the modifiers are by then. |
| Bindings.MoveSorted | custom/i3/src/bindings.c:690-716 | Moving the queue through the sorted array yields a permutation in descending order and empties the old queue. |
| Bindings.ReorderBindings | custom/i3/src/bindings.c:732-741 | Every mode gets such a permutation of its list, and the modes are then ordered as get_binding needs them. |
| Bindings.ReorderBindingsOfMode | custom/i3/src/bindings.c:690-716 | Only the list of this mode changes, to that permutation. |
| Assignments.RunAssignments | custom/i3/src/assignments.c:17-68 | With commands that re-enter arbitrarily: terminates, runs each command at most once per window, and on return every assignment that matched has run. |
| Assignments.Record | custom/i3/src/assignments.c:45-50 | Recording before running shrinks the set of unrecorded pairs, and leaves the command to be executed. |
| Assignments.ParseCommand | custom/i3/src/assignments.c:52-55 | The command is executed, and may start the same function again. |
| Assignments.ExecuteKeeps | custom/i3/src/assignments.c:28-55 | An execution directly after a match of an unrecorded pair keeps every command at most once per window. |
| Assignments.GrownMissing | custom/i3/src/assignments.c:28-55 | Nested calls only shrink the set of unrecorded pairs. |

## Left out

- ConSwap: for containers in the same fullscreen mode. The exchange of modes at the end of `con_swap` is `Fullscreen.SwapModes`, which leaves out that enabling a mode also moves the input focus. What the swap leaves of the flags of the workspaces is said for each `con_set_urgency` alone.
- SwapModes: the moves of the input focus in `con_enable_fullscreen` are left out.
- ConAttach: the case of a window on a workspace that has a `workspace_layout` is `AttachLayout.ConAttachLayout`.
- ConAttachLayout: the new split container is given; that `con_new` gives it a name and draws it is left out.
- ConFocus: `con_focus` passes `con_get_workspace(con)` on unguarded (`con.c:271`), so for an urgent leaf outside every workspace, such as a dock client, the code dereferences NULL; the model then recomputes no workspace flag.
- ConSetUrgency: the urgency timer and the timestamps are left out.
- ConOnRemoveChild: that `tree_close_internal` is called is a result; what it does is left out.
- ConEnableFullscreen: `workspace_show` and `con_activate` are taken to leave fullscreen modes alone and are left out; so are window properties and IPC events.
- CmdResizeTilingWidthHeight: `resize_find_tiling_participants` has already chosen the container; there are two children or more and the parent has an extent; `percent_for_1px` is one positive number.
- ConFixPercent: doubles are reals; rounding, infinities and NaN are left out.
- RenameWorkspace: the checks of the names, the parsing of the number and the move to an assigned output are left out.
- ConFindTransientForWindow: integer widths are left out.
- Run: in `Bindings` the keysym translation of a mode switch is left out, so keycodes and modifiers of a binding are fixed; the halves of the loop of `get_binding` for presses and releases are two methods. In `Menu` the keys that end the program, pasting and the table that maps control and meta keys to plain ones are left out.
- Qsort: any sorted permutation; the comparison function is the order of the masks as numbers.
- History: the condition on the assignments is exact for each of them (`GapSizes.AssignedBounded`); which assignment fits the name of a new workspace is left out; its gaps and its mask are given. Assignments are applied again after a reload of the configuration, which is not part of this model.
- GapsUpdate: `logical_px` and the parsing of the number are left out, and so is integer overflow.
- Tokenize: `strtok` and the other C string functions are written out on sequences without NUL; case folding is that of ASCII.
- Match: drawing, font metrics and the reading of the items; widths are a function of the text.
- DecodeText: fonts, ellipsis and the retry with another font are left out: every character is taken to exist in the font in use.
- RunAssignments: assignments and the set of windows do not change while it runs; matching may answer differently each time; a reload of the configuration and the rendering of the tree are left out.
- X11, cairo, pango, Xft, libev, yajl, logging, IPC, redraw caching and memory management are no-ops or absent.
- The other modules of the repository (nagbar, i3-msg, i3status, the Python wrapper, config lookup, layout loading, the parser tables) are not modelled.
- `con_merge_into`, `con_move_to_*`, layouts and borders of `con.c` are not modelled: they add no property of the kind proved here.

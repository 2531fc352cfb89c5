# boringwm engine, modelled in Dafny

boringwm is a minimal tiling window manager for X11. It keeps an ordered list of managed windows and the index of the focused one. It lays the windows out as a master column plus an evenly divided stack with fixed 8-pixel gaps. It grabs its key bindings under four lock-key variants. It reacts to MapRequest, DestroyNotify, KeyPress and FocusIn events.

This project models that engine and proves what it promises:

- `state.dfy` (module `State`): the `WmState` class, with `focus_next`, `focus_prev` and `remove_window` as methods that update its fields in place. Each method is specified by a pure function (`NextFocus`, `PrevFocus`, `Without`, `FocusAfterRemoval`) with lemmas about it.
- `layout.dfy` (module `Layout`): `tile` as a function that returns the geometry of every ConfigureWindow request, in order.
- `keys.dfy` (module `Keys`):
  - the chunk scan of `keycodes_for_keysym`, as a loop proved against a specification function;
  - the nested grab loops of `grab_keys` and `grab_multimedia_keys`;
  - the construction of the key-binding records.
- `volume.dfy` (module `Volume`):
  - `first_percentage`, including `split_whitespace` over Unicode White_Space and `u8` parsing;
  - the mute classification;
  - the notification built by `show_volume_osd` and `adjust_volume`.
- `wm.dfy` (module `Wm`):
  - the event loop of `run`, with `handle_key`, `focus`, `close_window`, `is_fullscreen` and `retile`;
  - `Run`, which replays a sequence of turns on a fresh `WmState`. Each turn is an event together with what the server answers while it is handled, so window properties may change between events. The resulting state is `Replay` of the turns, so the focus invariant holds after any sequence of events.
- `xtypes.dfy` (module `XTypes`): `Option` and the unsigned integer types.

X11 requests are returned as lists of `Request` values rather than sent. Server replies are inputs:

- interned atoms;
- ATOM-typed window properties;
- screen size;
- keyboard mapping.

The text that the sound-server utility prints is an input as well.

## Model

| member | source | states |
|---|---|---|
| State.NextFocus | src/state.rs:18-22 | on an empty list the index is unchanged; otherwise it advances by one and wraps from the last index to 0, so it stays below the window count |
| State.PrevFocus | src/state.rs:24-32 | on an empty list the index is unchanged; for an index at most the window count, the result stays below the count |
| State.FocusPrevSteps | src/state.rs:24-32 | index 0 wraps to the last index; any other index moves back by one |
| State.FocusNextPrevInverse | src/state.rs:18-32 | for an index in range, next followed by prev, and prev followed by next, both restore the index |
| State.IndexOf | src/state.rs:35 | `iter().position`: None exactly when the handle is absent, otherwise the first index holding it |
| State.Without | src/state.rs:37 | `retain(x != w)`: the survivors are exactly the elements other than `w`, with every copy of `w` dropped and the other multiplicities kept |
| State.WithoutAppend | src/state.rs:37 | filtering distributes over concatenation, so the relative order of the survivors is kept |
| State.WithoutAbsent | src/state.rs:35-37 | removing a handle that is not in the list leaves the list unchanged |
| State.WithoutKeepsPrefix | src/state.rs:35-37 | the windows before the first occurrence survive unchanged at the front |
| State.WithoutSingle | src/state.rs:37 | removing a handle that occurs once closes the gap it leaves |
| State.FocusAfterRemoval | src/state.rs:39-52 | an empty list gives focus 0; a non-empty list gives an index below its length |
| State.RemoveFocusedSelectsPrevious | src/state.rs:44-45 | removing the focused window at index i > 0 focuses i-1, which is the window that preceded it; at index 0 focus stays 0 |
| State.RemoveBeforeFocusShiftsLeft | src/state.rs:46-47 | removing the only copy of a window before the focused one decrements focus, so it still designates the same window |
| State.RemoveAfterFocusKeepsFocus | src/state.rs:44-52 | removing a window after the focused one keeps focus on the same window |
| State.WmState.constructor | src/state.rs:10-16 | no windows, focus 0, invariant established |
| State.WmState.FocusNext | src/state.rs:18-22 | the windows are unchanged, focus becomes `NextFocus`, and the focus invariant is preserved |
| State.WmState.FocusPrev | src/state.rs:24-32 | the windows are unchanged, focus becomes `PrevFocus`, and the focus invariant is preserved |
| State.WmState.RemoveWindow | src/state.rs:34-53 | an absent handle changes nothing; otherwise every copy is removed, focus is re-indexed by `FocusAfterRemoval`, and the invariant holds afterwards whatever the focus was before |
| Layout.MasterWidth | src/layout.rs:46 | the master width is clamped into `[0, sw]` and is unchanged when already in range |
| Layout.Tile | src/layout.rs:8-85 | either no geometry at all or exactly one per window, in list order, each carrying the given border width; widths and heights are non-negative |
| Layout.TileEmptyExactly | src/layout.rs:16-27 | no geometry exactly when there are no windows, the usable area collapses, or (for two or more windows) `sh - n*8 <= 0` |
| Layout.TileSingleWindow | src/layout.rs:30-43 | one window gets `(8, 8, sw-16, sh-16)` |
| Layout.TileMaster | src/layout.rs:46-69 | the master is at `(8, 8)`, with height `sh-16` and width `max(master_width-16, 0)` |
| Layout.TileStackSlot | src/layout.rs:47-58 | stack window i is at `x = master_width + 8` and `y = 8 + i*(stack_height + 8)`, with the common stack width and height |
| Layout.TileStackAdjacent | src/layout.rs:72-83 | consecutive stack windows are exactly one gap apart in the same column, so they never overlap |
| Layout.TileWithinHeight | src/layout.rs:50-54 | every window lies between the top gap and `sh - 8` |
| Layout.TileMasterLeftOfStack | src/layout.rs:46-47 | the master's right edge never passes the stack column's x |
| Layout.TileWithinWidth | src/layout.rs:46-57 | with a stack column at least 16 pixels wide, every window lies between the left gap and `sw - 8` |
| Layout.TileStackHeightCanBeZero | src/layout.rs:54-58 | sizes clamp to 0, not 1: five windows on a 41-pixel-high screen get stack height 0 |
| Keys.MappingRequestFor | src/keys.rs:99-104 | the request starts at the minimum keycode and covers through the maximum, with a count of 1 when max < min |
| Keys.Chunks | src/keys.rs:114 | `chunks(n)`: every chunk is non-empty and at most n long, and all but the last are exactly n |
| Keys.FlattenChunks | src/keys.rs:114 | joining the chunks gives back the keysym array |
| Keys.MatchingChunks | src/keys.rs:114-115 | the chunk indices holding the symbol, strictly increasing, containing every such index |
| Keys.KeycodeAt | src/keys.rs:116 | `min.saturating_add(index as u8)`: the index is truncated to its low 8 bits, the sum is exact when it fits, and 255 when it does not; the keycode is always at least the minimum |
| Keys.KeycodesFor | src/keys.rs:98-122 | a failed mapping request or reply gives no keycodes; every keycode is at least the minimum |
| Keys.KeycodesForExact | src/keys.rs:113-119 | when every index fits, keycode c is reported exactly when chunk `c - min` holds the symbol, and the keycodes strictly increase, so there are no duplicates |
| Keys.ChunkCount | src/keys.rs:114 | an array of `count * n` keysyms falls into exactly `count` chunks of n |
| Keys.MappingReplyFits | src/keys.rs:100-104 | a reply with `keysyms_per_keycode` symbols for every requested keycode meets the hypothesis of KeycodesForExact |
| Keys.KeycodesForKeysym | src/keys.rs:112-121 | the push loop over the chunks returns `KeycodesFor` |
| Keys.BoundKeycodes | src/keys.rs:32-42 | the chained bindings: the sum of the seven lengths, and membership in any one of them |
| Keys.MultimediaKeys | src/keys.rs:67-71 | volume_down, then volume_mute, then volume_up: their total length and membership |
| Keys.GrabPlan | src/keys.rs:51-55 | one grab request per pair of modifier variant and keycode: (variants) × (keycodes) requests |
| Keys.GrabPlanAt | src/keys.rs:51-55 | with K keycodes, grab `i*K + j` is keycode j under modifier variant i (modifier-major order) |
| Keys.GrabPlanCovers | src/keys.rs:51-55 | a grab is issued exactly for the pairs of a listed variant and a listed keycode |
| Keys.IssueGrabs | src/keys.rs:51-55 | the nested loops issue the whole plan |
| Keys.GrabKeys | src/keys.rs:31-56 | the plan over MOD, MOD+M2, MOD+LOCK and MOD+M2+LOCK (MOD is M4): four grabs per bound keycode, every one with M4 |
| Keys.GrabMultimediaKeys | src/keys.rs:58-76 | the plan over no modifier, M2, LOCK and M2+LOCK: four grabs per multimedia keycode, none with M4 |
| Keys.ResolveKeybindings | src/keys.rs:86-96 | each command's keycodes are those for its keysym (Return, q, j, k, t, b, d) |
| Keys.ResolveMultimediaKeycodes | src/keys.rs:78-84 | each volume key's keycodes are those for its XF86 audio keysym |
| Volume.WordLength | src/wm.rs:229 | the word that starts the text has no whitespace and ends at whitespace or at the end |
| Volume.Tokens | src/wm.rs:229 | `split_whitespace` yields only non-empty tokens without whitespace (with TokensJoin and TokensSplit: exactly the maximal runs, in order) |
| Volume.TokensOfWord | src/wm.rs:229 | a non-empty text without whitespace is a single token |
| Volume.TokensJoin | src/wm.rs:229 | the tokens written one after another are the text with its whitespace removed, in order: no character is lost, added or moved |
| Volume.TokensSplit | src/wm.rs:229 | no token spans whitespace: cutting the text at a whitespace character cuts its token list at the same place |
| Volume.Decimal | src/wm.rs:251 | `format!("{v}")` is a non-empty digit string with no leading zero: it starts with '0' only for 0 |
| Volume.DecimalRoundTrip | src/wm.rs:251 | reading back a rendered number gives the number |
| Volume.ParseU8 | src/wm.rs:231 | `parse::<u8>` accepts exactly an optional `+` followed by a non-empty run of ASCII digits whose value is at most 255, and then yields that value; a leading `-` is always rejected |
| Volume.ParseDecimal | src/wm.rs:231 | every u8 rendered in decimal parses back to itself |
| Volume.PercentValue | src/wm.rs:230-231 | `strip_suffix('%')` then parse: a token gives a value exactly when it ends in `%` and what precedes the `%` parses as a u8, and the value is that parse |
| Volume.FirstPercentageIn | src/wm.rs:228-237 | None exactly when no token ends in `%` with a u8 before it |
| Volume.FirstPercentageIsFirst | src/wm.rs:228-237 | a found value is that of some qualifying token, and every earlier token was skipped |
| Volume.FirstPercentage | src/wm.rs:228-237 | None exactly when no token of the text qualifies; otherwise the value of a qualifying token |
| Volume.PercentRoundTrip | src/wm.rs:228-237 | the text `{v}%` yields v |
| Volume.ContainsAt | src/wm.rs:219-221 | an occurrence of the pattern at any position is found |
| Volume.Contains | src/wm.rs:219-221 | `str::contains`: a pattern is found only in a text at least as long as it |
| Volume.ContainsOccurs | src/wm.rs:219-221 | a pattern is found only where it actually occurs (the converse of ContainsAt) |
| Volume.MuteState | src/wm.rs:213-226 | output containing "yes" gives Some(true); otherwise containing "no" gives Some(false); otherwise, or when the utility failed, None |
| Volume.YesOutranksNo | src/wm.rs:219-221 | a report that contains both "yes" and "no" counts as muted |
| Volume.ReadVolumeStatus | src/wm.rs:195-210 | the mute state is read first; a definitely muted sink has no volume reading; otherwise the volume is the first percentage of the volume report, or None when the utility failed |
| Volume.OsdBody | src/wm.rs:255-265 | the body is never empty, and it is "Stumm" exactly when the sink is muted |
| Volume.PercentText | src/wm.rs:258 | `format!("{v}%")` ends in a percent sign after at least one character, and reads back as a percentage of exactly v |
| Volume.OsdBodyCases | src/wm.rs:255-265 | muted gives "Stumm"; otherwise a known volume v is shown as text that reads back as v; otherwise "Aktiv" (not muted) or "Geändert" (unknown) |
| Volume.OsdCommand | src/wm.rs:240-267 | six fixed options, then the `int:value:{v}` hint exactly when a volume is known, then the summary "Audio" and the body |
| Volume.ShowVolumeOsd | src/wm.rs:239-268 | building the command step by step, with its early returns, gives `OsdCommand` |
| Volume.ActionArguments | src/wm.rs:177-193 | Up and Down run `set-sink-volume` on the default sink with `+5%` and `-5%`; ToggleMute runs `set-sink-mute` on the default sink with `toggle` |
| Volume.AdjustVolume | src/wm.rs:176-202 | the action's command, then the notification `OsdCommand` of the readings; a muted sink gives 8 arguments ending in "Stumm", otherwise the value hint is present exactly when a volume was read |
| Wm.ResolveKey | src/wm.rs:108-167 | the first matching arm wins: the seven keycode arms in match order, then volume up, volume down and mute; a keycode is unbound exactly when no arm matches it |
| Wm.FirstLongs | src/wm.rs:290 | GetProperty with length 32 returns the first `min(n, 32)` values of the property, in order |
| Wm.IsFullscreen | src/wm.rs:351-386 | a window is fullscreen exactly when its `_NET_WM_STATE` can be read and one of its first 32 entries is `_NET_WM_STATE_FULLSCREEN` |
| Wm.FullscreenBeyondFirst32IsTiled | src/wm.rs:366-370 | a FULLSCREEN state listed only after the 32nd entry is not seen, so the window is tiled |
| Wm.CloseRequest | src/wm.rs:287-317 | a format-32 WM_DELETE_WINDOW client message with data `[delete, CurrentTime, 0, 0, 0]` exactly when both atoms resolved and the first 32 protocols list the delete atom; KillClient otherwise |
| Wm.CloseWindow | src/wm.rs:274-318 | exactly one request, the close decision `CloseRequest`: never both a message and a kill |
| Wm.DeleteBeyondFirst32IsKilled | src/wm.rs:290-295 | a WM_DELETE_WINDOW listed only after the 32nd protocol is not seen, and the client is killed |
| Wm.FocusRequests | src/wm.rs:320-337 | one border colour per window: BORDER_FOCUSED exactly at the focused index, BORDER_NORMAL elsewhere; input focus and raise for the focused window only when that index exists |
| Wm.Focus | src/wm.rs:320-337 | the colouring loop issues `FocusRequests` |
| Wm.RetileRequests | src/wm.rs:339-349 | the tiling as Configure requests with BORDER_WIDTH: none exactly when Tile gives none, otherwise one per managed window in list order, request i carrying exactly Tile's geometry i, so the Tile lemmas hold of what is sent |
| Wm.Step | src/wm.rs:50-98 | one event keeps the focus invariant, never adds a window other than a mapped one, and leaves a destroyed window unmanaged |
| Wm.Replay | src/wm.rs:46-99 | after any sequence of turns from the initial state, whatever the server answers in each, the focus is in range |
| Wm.ManagedWindowsWereMapped | src/wm.rs:51-82 | every managed window arrived in a MapRequest whose window was not fullscreen when it was handled, with no DestroyNotify for it since |
| Wm.HandleKey | src/wm.rs:102-168 | J and K rotate the focus and recolour the borders; Q closes the focused window only when that index exists; no arm changes the window list; other arms send nothing |
| Wm.HandleMapRequest | src/wm.rs:51-75 | a fullscreen window leaves the state untouched and gets a configure to the whole screen, then a map. Any other window is appended with no duplicate check and focused; the requests are border colour and focus events, border width, map, the focus requests for the new state, then the retile |
| Wm.HandleDestroyNotify | src/wm.rs:77-82 | the new window list is the old one with every copy of the window removed, focus is 0, and the requests are the focus requests then the retile |
| Wm.HandleFocusIn | src/wm.rs:88-95 | the window list is unchanged; a managed window takes the focus at its first index, with focus requests only when that index differs from the old focus; an unmanaged window changes and sends nothing |
| Wm.HandleEvent | src/wm.rs:50-98 | the new state is `Step` of the old. A fullscreen MapRequest leaves the state untouched and sends a configure to `(0, 0, sw, sh)` with border 0, then a map. Any other MapRequest appends the window with no duplicate check and focuses it, then sends border colour and focus events, border width, map, focus requests and the retile. DestroyNotify removes every copy, sets focus 0, and sends focus requests and the retile. FocusIn moves focus to the window's first index only if it is managed, and sends focus requests only when the index changes. A KeyPress leaves the window list alone and acts as HandleKey: J and K rotate focus and send focus requests, Q sends the close decision for the focused window when there is one, and every other key changes and sends nothing. Any other event changes and sends nothing |
| Wm.Run | src/wm.rs:46-99 | the event loop from `WmState::new` ends in `Replay` of the turns, with the focus in range |

## Left out

- The X11 connection:
  - connecting and selecting root events;
  - `wait_for_event`;
  - `flush`;
  - atom interning.

  Replies are inputs (`Display`, `KeyboardMapping`, `Setup`), and requests are returned as values.
- Wm.IsFullscreen: the `unwrap` panics when an atom cannot be interned are not modelled. The two atoms are always present in `Display`.
- The start-up sequence of `run` is not modelled. It runs autostart, then `grab_keys` (called without the bindings that its signature requires), then multimedia key resolution and grabbing. `Run` starts at the event loop. The grab and resolution functions are modelled on their own in `Keys`.
- Process spawning is not modelled, and the sound-server output is an input:
  - the autostart script;
  - terminal, file manager, browser and launcher;
  - the sound-server utility;
  - the notification tool.

  The commands' arguments are modelled for the sound-server action and the notification. The launch arms of `handle_key` resolve to commands with no effect on the state.
- Wm.KeyTable: `handle_key` matches on seven `KEY_*` keycode constants that no source file defines. They are a parameter of the model, and no values are assumed for them.
- Floating point: `master_ratio` (0.6) and `(sw as f32 * master_ratio) as i32` are replaced by the integer `Display.scaledMasterWidth`. `Tile` clamps it to `[0, sw]`. `master_ratio` is therefore not a field of `WmState`.
- Keys.KeycodesFor: `chunks` panics on a zero `keysyms_per_keycode`. Zero is therefore excluded by a precondition whenever a reply exists.
- Keys.MappingRequestFor: the `u8` overflow of `saturating_sub + 1` when the keycode range is 0..255 is not modelled. The count is an unbounded integer.
- Keys.ResolveKeybindings: each `keycodes_for_keysym` call issues its own mapping request; here all calls share one reply, and a reply that differs between calls is not modelled.
- Keys.IssueGrabs: a grab request that fails is not modelled. Its result is discarded in the source, so every grab in the plan is issued regardless.
- Text decoding: `from_utf8_lossy` is not modelled. The utility's output is already a string.
- Integer widths in `tile`: `i32` overflow and the `usize` to `i32` cast of the stack count cannot occur for a `u16` screen and realistic window counts, and are not modelled.
- State.RemoveBeforeFocusShiftsLeft: stated only for a handle that occurs once. With duplicates, `retain` drops several earlier copies but focus moves back by only one, so the focused window can change.
- Event handling follows the code, not the intended design:
  - MapRequest does not deduplicate;
  - DestroyNotify does not call `remove_window`, resets focus to 0 and ignores unmanaged windows only through `retain`;
  - a key press never retiles;
  - sizes clamp to 0, not 1;
  - UnmapNotify and ConfigureRequest are ignored.
- Logging and `main.rs` are not part of this model.

# A Dafny model of the Reel, Tree and AI message cores

This project models four pieces of a React component library and proves properties of them.

- **Reel playback** (`reel.dfy`, module `ReelPlayback`). The Reel is a carousel of videos and images with one store: the current index, a progress percentage, the play and mute flags and the current duration. Index changes, the previous/next buttons, clicks on the navigation surface, auto-advance at the end of an item, the video progress writers and the image timer all act on that store.
  - The datatype `Playback` is the whole state, and each `After...` function is one transition of it.
  - `class Reel<T>` holds the same state in mutable fields. It has one method per transition, and each method is proved to perform exactly its transition.
  - React effects are methods that the environment calls after the change that triggers them.
  - Animation-frame callbacks are an "armed" flag plus a method that fires the pending callback at a given clock value.
  - Clock values are `real` milliseconds and percentages are `real`.
  - `onIndexChange` is modelled as the log `notified` of every index it was called with.
- **Tree indentation** (`tree.dfy`, module `TreeView`). The nesting level travels down the element tree through a context. `Tree` provides 0, `TreeItem` provides its own level + 1, and `TreeContent` passes the level through. Triggers and leaves turn the level into a left padding. The level is also characterised by an independent definition in terms of the node's ancestors.
- **File icons** (`file_icons.dfy`, module `FileIcons`). The example file tree picks a file's icon from the text after its last `.`, lower-cased, and sorts it into five kinds.
- **AI message actions** (`message_actions.dfy`, module `MessageActions`).
  - The caller's action config is spread over the built-in defaults of its type; a `custom` action gets no defaults.
  - A click invokes the merged handler.
  - The action bar has its own prop defaults and gives each button a React key.
  - The avatar falls back to the first two characters of the name, or `ME`.
  - An object property is left out, explicitly `undefined`, or set (`Prop`). They differ because a spread copies a key that is present with the value `undefined`.

`wrappers.dfy` holds the `Option` type used for JavaScript's `undefined`.

Facts about the code that the model keeps:
- The model, like the code, has no guard against advancing twice. The video's ended event and the image timer each advance on their own. No flag suspends progress during a manual move.
- `defaultIndex` is not range-checked. `NextEnabledPastEnd` shows the consequence for an index past the end.
- The image timer reads the `duration` prop. The model reads the store's `duration`, which the image's reset effect sets to that prop (packages/reel/index.tsx:315-319). The two agree from the reset effect on.

## Model

| member | source | states |
|---|---|---|
| ReelPlayback.Reel.constructor | packages/reel/index.tsx:72-76 | The store starts at `defaultIndex` (unchecked), progress 0, duration 0, play and mute from `autoPlay` and `defaultMuted`, no notifications, no frame pending. |
| ReelPlayback.Reel.CurrentItem | packages/reel/index.tsx:87 | The current item exists exactly when the index is inside the data, and is then `data[currentIndex]`. |
| ReelPlayback.Reel.SetIndex | packages/reel/index.tsx:78-85 | Sets the index to `i`, clears progress and notifies exactly `i`; every other field is unchanged. |
| ReelPlayback.Reel.TogglePlay | packages/reel/index.tsx:486 | Flips `isPlaying`; nothing else changes. |
| ReelPlayback.Reel.ToggleMute | packages/reel/index.tsx:498 | Flips `isMuted`; nothing else changes. |
| ReelPlayback.Reel.Previous | packages/reel/index.tsx:452-456 | One step back through `SetIndex` when the index is positive; no change at all otherwise. |
| ReelPlayback.Reel.Next | packages/reel/index.tsx:458-462 | One step forward through `SetIndex` below the last index; no change at all otherwise. |
| ReelPlayback.Reel.Click | packages/reel/index.tsx:529-541 | A click left of the middle acts as the clamped previous move; any other click acts as the clamped next move. |
| ReelPlayback.Reel.Advance | packages/reel/index.tsx:249-258 | A finished item moves to the next index, or back to 0 from the last index on. |
| ReelPlayback.Reel.VideoLoaded | packages/reel/index.tsx:205-213 | Metadata sets both the video's own duration and the store's duration. |
| ReelPlayback.VideoProgress | packages/reel/index.tsx:220 | The percent of the video played: that percent of the video's duration is the element's current time (the same formula at line 234). |
| ReelPlayback.ImageProgressAt | packages/reel/index.tsx:328-329 | The percent of an image item elapsed at clock `t`: the virtual start plus that percent of the item's duration, in milliseconds, is `t`. |
| ReelPlayback.ResumeStart | packages/reel/index.tsx:324-325 | The virtual start that makes the progress at the current clock value equal the paused progress, for any non-zero duration. |
| ReelPlayback.Reel.VideoTimeUpdate | packages/reel/index.tsx:215-223 | Sets progress to `currentTime / videoDuration * 100`; does nothing while the video duration is 0. |
| ReelPlayback.Reel.VideoIndexEffect | packages/reel/index.tsx:260-269 | After an index change, progress is cleared and play is requested of the element when the reel is playing. |
| ReelPlayback.Reel.VideoPlayEffect | packages/reel/index.tsx:272-281 | After a play/pause change, the element is asked to play exactly when the reel plays. |
| ReelPlayback.Reel.VideoLoopEffect | packages/reel/index.tsx:226-247 | The old frame callback is cancelled, and a new one is armed exactly when the reel is playing. |
| ReelPlayback.Reel.VideoFrame | packages/reel/index.tsx:231-238 | A pending frame stores the video progress and re-arms while the duration is non-zero and the element is neither paused nor ended; otherwise the loop stops. |
| ReelPlayback.Reel.VideoEnded | packages/reel/index.tsx:249-258 | The ended event performs the auto-advance. |
| ReelPlayback.Reel.ImageReset | packages/reel/index.tsx:315-319 | After an index or duration change, the store's duration takes the image's duration, and progress and paused progress go to 0. |
| ReelPlayback.Reel.ImageStart | packages/reel/index.tsx:323-326 | While playing, the virtual start moves back by the recorded progress (`now - paused*duration/100*1000`) and a frame is armed. |
| ReelPlayback.Reel.ImagePause | packages/reel/index.tsx:347-349 | While paused, the pending frame is cancelled and the current progress is recorded. |
| ReelPlayback.Reel.ImagePlayEffect | packages/reel/index.tsx:322-364 | The play/pause effect takes the start branch when playing and the pause branch otherwise. |
| ReelPlayback.Reel.ImageFrame | packages/reel/index.tsx:327-344 | A pending frame computes the elapsed percentage. At 100 or more it advances the reel and does not re-arm; below 100 it stores progress and paused progress and re-arms. |
| ReelPlayback.ThreeImagesScenario | packages/reel/index.tsx:305-349 | Three 5-second images playing from index 0 show 50% at 2.5 s, then move on to 1, 2 and back to 0 as each one completes. |
| ReelPlayback.PreviousDisabled | packages/reel/index.tsx:476 | The Previous button is disabled at index 0, and there its handler changes nothing. |
| ReelPlayback.NextDisabled | packages/reel/index.tsx:511 | The Next button is disabled at the last index, and there its handler changes nothing. |
| ReelPlayback.ManualMovesClamped | packages/reel/index.tsx:452-462 | Previous stays at 0 and otherwise decrements; Next stays at the last index and otherwise increments. Previous, Next and Click keep an in-range index in range. |
| ReelPlayback.DisabledIffNoOp | packages/reel/index.tsx:476 | Previous is disabled exactly when its handler changes nothing, and Next likewise (buttons at lines 476 and 511, handlers at 452-462). |
| ReelPlayback.NextEnabledPastEnd | packages/reel/index.tsx:511 | With an unchecked index past the end, Next is not disabled, yet its handler does nothing. |
| ReelPlayback.MoveResetsProgress | packages/reel/index.tsx:78-85 | A move that changes anything moves the index by exactly one, clears progress and notifies exactly the new index. |
| ReelPlayback.AdvanceWraps | packages/reel/index.tsx:331-338 | Auto-advance lands in range from any non-negative index. From an in-range index it goes to `(index + 1) mod n`. It clears progress. |
| ReelPlayback.SegmentFill | packages/reel/index.tsx:421-426 | A segment is full before the current one, shows the current progress at it, and is empty after it (also the value at line 397). With progress in [0, 100] every fill is in [0, 100]. |
| ReelPlayback.Fills | packages/reel/index.tsx:421-426 | The bar has one fill per item. |
| ReelPlayback.FillsNonIncreasing | packages/reel/index.tsx:397 | With progress in [0, 100], fills lie in [0, 100] and never increase from left to right. |
| ReelPlayback.FillsAfterIndexChange | packages/reel/index.tsx:421-426 | Right after the index is set to `i`, the segments before `i` are full and the rest are empty. |
| ReelPlayback.VideoProgressBounds | packages/reel/index.tsx:220 | For a time within the duration, video progress lies in [0, 100], and it is 100 exactly at the end. |
| ReelPlayback.VideoWritersAgree | packages/reel/index.tsx:233-235 | The frame loop and the timeupdate handler write the same progress and leave the index alone. |
| ReelPlayback.ResumeFromPaused | packages/reel/index.tsx:324-329 | A frame at the clock value the start was computed at sees exactly the recorded progress. |
| ReelPlayback.ImageCompletesAfterDuration | packages/reel/index.tsx:328-331 | Image progress reaches 100 exactly when the whole duration has elapsed since the virtual start. |
| ReelPlayback.ImageProgressMonotone | packages/reel/index.tsx:328-329 | Image progress never decreases as the clock advances. |
| ReelPlayback.ImageFrameBelowFull | packages/reel/index.tsx:331-343 | An image frame never leaves progress at 100 or more: it stores a value below 100, or it advances and progress is 0. |
| ReelPlayback.PauseResumeKeepsProgress | packages/reel/index.tsx:322-349 | Pausing and playing again, then a frame at the effect's clock value, shows the same progress on the same item with the loop running. |
| ReelPlayback.ResetStartsFromZero | packages/reel/index.tsx:315-319 | After an index or duration change, playing starts the item from 0 whatever progress was recorded before. |
| ReelPlayback.ImageFrameAtDeadlineAdvances | packages/reel/index.tsx:331-338 | A frame at or after the deadline performs the auto-advance and stops the image loop. |
| ReelPlayback.TogglesInvolutive | packages/reel/index.tsx:486 | Toggling play twice, or mute twice (line 498), restores the state. |
| TreeView.LevelFrom | packages/tree/index.tsx:63-71 | The level a node reads from the context, threaded down from the root. The root reads the level it is given. Its direct child reads 0 below a `Tree` (line 31), the root's level + 1 below a `TreeItem`, and the root's own level below anything else. |
| TreeView.LevelAt | packages/tree/index.tsx:22-24 | The level with no provider above the root: the root sees the context default 0, and a level exists exactly when the path names a node. |
| TreeView.TriggerPadding | packages/tree/index.tsx:105 | A trigger at level `l` is padded `12*l + 8` pixels, which lies strictly inside the 12-pixel band of its level, so deeper triggers are always further right. |
| TreeView.LeafPadding | packages/tree/index.tsx:151 | A leaf at level `l` is padded `12*l + 32` pixels, exactly 24 more than a trigger at the same level. |
| TreeView.PaddingOfLevel | packages/tree/index.tsx:105 | A trigger at level `l` gets exactly `12*l + 8` pixels and a leaf exactly `12*l + 32` (line 151). |
| TreeView.PaddingAt | packages/tree/index.tsx:105 | Only triggers and leaves (line 151) get a padding, every one of them does, and no padding is below 8 pixels. |
| TreeView.LevelDefinedIffNode | packages/tree/index.tsx:63-71 | A path has a level exactly when it names a node, and then it has one ancestor per step. |
| TreeView.LevelWithoutTree | packages/tree/index.tsx:22-24 | With no `Tree` above a node, it sees the outer level (0 by the context default) plus one per enclosing item. |
| TreeView.LevelBelowTree | packages/tree/index.tsx:31 | Below the innermost enclosing `Tree`, a node sees exactly the number of items between that tree and itself. |
| TreeView.LevelCountsItems | packages/tree/index.tsx:63-71 | Every node's level equals the reference level computed from its ancestors alone. |
| TreeView.PaddingFromAncestors | packages/tree/index.tsx:105 | A trigger is padded `12*level + 8` pixels and a leaf `12*level + 32` (line 151), with the reference level. |
| TreeView.TreeIgnoresOuterLevel | packages/tree/index.tsx:31 | Inside a `Tree` the levels do not depend on the level the tree itself sees. |
| TreeView.ContentKeepsLevel | packages/tree/index.tsx:119-132 | `TreeContent` passes the level through unchanged, and `TreeItem` gives its children one more (line 71). |
| TreeView.PathAppend | packages/tree/index.tsx:63-71 | Levels compose along paths: following `p` then `q` is following `q` from the node `p` reaches, at the level `p` ends with. |
| TreeView.LeafBesideTrigger | packages/tree/index.tsx:151 | A leaf in an item's content sits exactly 24 pixels right of that item's trigger (line 105). |
| TreeView.NestedTriggerIndent | packages/tree/index.tsx:71 | A trigger one item deeper sits exactly 12 pixels further right (line 105). |
| FileIcons.Extension | apps/docs/examples/tree-file.tsx:14 | `split('.').pop()`: the final dot-free segment of the name, that is, the text after its last `.`, or the whole name without a `.`. |
| FileIcons.Classify | apps/docs/examples/tree-file.tsx:16-33 | The switch: code exactly for `tsx`, `ts`, `js` and `jsx`; package exactly for `json`; text exactly for `md` and `mdx`; image exactly for `png`, `jpg` and `svg`; generic for everything else. |
| FileIcons.FileIcon | apps/docs/examples/tree-file.tsx:13-34 | `getFileIcon`: the classification of the lower-cased final segment of the name, defined for every string. |
| FileIcons.Split | apps/docs/examples/tree-file.tsx:14 | `split('.')` gives at least one piece, no piece contains the separator, and a string without it is its own single piece. |
| FileIcons.Lower | apps/docs/examples/tree-file.tsx:14 | Lower-casing keeps the length and maps each character on its own. |
| FileIcons.JoinSplit | apps/docs/examples/tree-file.tsx:14 | Joining the pieces of a split with the separator gives the string back. |
| FileIcons.LastPiece | apps/docs/examples/tree-file.tsx:14 | The last piece of a split is a suffix of the string, preceded by the separator unless it is the whole string. |
| FileIcons.ExtensionIsFinalSegment | apps/docs/examples/tree-file.tsx:14 | The extension is the final dot-free segment of the name. |
| FileIcons.FinalSegmentUnique | apps/docs/examples/tree-file.tsx:14 | A name has only one final segment. |
| FileIcons.ExtensionAfterLastDot | apps/docs/examples/tree-file.tsx:14 | The extension is the text after the last `.`, and a name without `.` is its own extension. |
| FileIcons.OnlyFinalSegmentMatters | apps/docs/examples/tree-file.tsx:13-34 | For any prefix, `prefix.ext` has extension `ext` and is classified by `ext` alone, so `a.json.ts` is code. |
| FileIcons.TrailingDotIsGeneric | apps/docs/examples/tree-file.tsx:31-32 | A name ending in `.` has the empty extension and the generic icon. |
| FileIcons.ExtensionOfLower | apps/docs/examples/tree-file.tsx:14 | Lower-casing the name and then taking the extension equals taking the extension and then lower-casing it. |
| FileIcons.CaseInsensitive | apps/docs/examples/tree-file.tsx:14 | Names equal up to letter case get the same icon. |
| FileIcons.NamedBy | apps/docs/examples/tree-file.tsx:13-34 | A lower-case, dot-free extension after any prefix and a `.` decides the icon by the switch alone. |
| FileIcons.CodeExtensions | apps/docs/examples/tree-file.tsx:17-21 | Any of `tsx`, `ts`, `js` and `jsx` after any prefix and a `.` gives the code icon. |
| FileIcons.PackageExtension | apps/docs/examples/tree-file.tsx:22-23 | `json` after any prefix gives the package icon. |
| FileIcons.TextExtensions | apps/docs/examples/tree-file.tsx:24-26 | `md` or `mdx` after any prefix gives the text icon. |
| FileIcons.ImageExtensions | apps/docs/examples/tree-file.tsx:27-30 | Any of `png`, `jpg` and `svg` after any prefix gives the image icon. |
| FileIcons.UnlistedExtensions | apps/docs/examples/tree-file.tsx:31-32 | `css`, `html` and `ico`, the unlisted extensions of the example tree, fall through to the generic icon after any prefix. |
| FileIcons.ExampleTreeIcons | apps/docs/examples/tree-file.tsx:85-101 | `styles.css` and `favicon.ico` are generic, `index.ts` is code and `package.json` is a package. |
| MessageActions.BuiltInDefaults | packages/ai/message.tsx:100-152 | Every built-in type has an icon, a non-empty label and its own handler by default, and never a `disabled` setting. |
| MessageActions.Merge | packages/ai/message.tsx:165-168 | The merged config keeps the caller's type and the caller's `disabled`. |
| MessageActions.MergeFieldByField | packages/ai/message.tsx:165-167 | For a built-in type, each of icon, label and handler is the caller's when the caller wrote the key, and the type's default otherwise. |
| MessageActions.CustomUnchanged | packages/ai/message.tsx:165-168 | A `custom` config is used exactly as given. |
| MessageActions.DisabledOnlyFromCaller | packages/ai/message.tsx:182 | No built-in sets `disabled` (lines 100-152), so a button is disabled exactly when the caller says `disabled: true`. |
| MessageActions.BuiltInComplete | packages/ai/message.tsx:100-152 | A built-in action whose caller did not write `undefined` over a field always has a title, an icon and a handler. |
| MessageActions.ButtonOf | packages/ai/message.tsx:182-190 | The button has a title exactly when the merged config has a label, and shows an icon exactly when it has one. It is disabled exactly when the caller's own config says `disabled: true`. |
| MessageActions.ClickCalls | packages/ai/message.tsx:170-174 | A click makes at most one handler call. |
| MessageActions.ClickInvokesHandlerOnce | packages/ai/message.tsx:170-174 | A click calls the merged handler exactly once with the message when there is one, and does nothing otherwise. A built-in without a caller handler calls its default, and a custom action without a handler is inert. |
| MessageActions.UndefinedHandlerMasksDefault | packages/ai/message.tsx:167 | A handler key explicitly set to `undefined` hides the default handler, so the click does nothing; an omitted key keeps the default. |
| MessageActions.BuiltInEffect | packages/ai/message.tsx:107-111 | The default copy handler writes the message to the clipboard, and the share handler (lines 144-150) shares it, only for a non-empty message when the browser has the API; the other defaults do nothing. |
| MessageActions.DefaultCopyAndShare | packages/ai/message.tsx:104-150 | Clicking a default copy button calls the copy handler with the message, which reaches the clipboard, or the share sheet for share; an absent or empty message has no effect. |
| MessageActions.BuiltInTitles | packages/ai/message.tsx:104-130 | Default copy and retry buttons are titled "Copy message" and "Retry generation" (line 185); a custom action without a label has no title. |
| MessageActions.NatToString | packages/ai/message.tsx:223 | The index prints as a non-empty string of decimal digits. |
| MessageActions.ParseNatToString | packages/ai/message.tsx:223 | Reading back the printed index gives the index. |
| MessageActions.Key | packages/ai/message.tsx:223 | The key is the type name, a dash, then only decimal digits that read back as the index. |
| MessageActions.KeyInjective | packages/ai/message.tsx:223 | Two keys `${type}-${index}` are equal only for the same type and index. |
| MessageActions.RenderActions | packages/ai/message.tsx:195-199 | Without actions the bar is empty; position defaults to bottom, display to hover and align to right. |
| MessageActions.RenderedInOrderWithDistinctKeys | packages/ai/message.tsx:220-226 | One button per action in input order, each with the bar's message, and the keys are pairwise distinct. |
| MessageActions.AvatarFallback | packages/ai/message.tsx:67 | The fallback is the first two characters of the name (the whole name if shorter), or `ME` when the name is absent or empty; it has one or two characters. |

## Left out

- Rendering and animation are not modelled: JSX, class names, icons as elements, motion transitions and the segment `transition` style (packages/reel/index.tsx:427-429). They are presentation only.
- `requestAnimationFrame`, `cancelAnimationFrame` and `performance.now` are replaced by explicit clock parameters and an "armed" flag per frame loop. Effect re-runs and their cleanups are methods the environment calls in the order React runs them.
- The DOM video element is represented only by its reported time, paused and ended flags, and by the last play or pause request (`mediaPlaying`). The `play()` promise and its swallowed rejection are left out, and so is the rewind `video.currentTime = 0`. The mute effect (packages/reel/index.tsx:198-203), which only copies `isMuted` to the element, is left out too.
- The caller callbacks `onEnded`, `onTimeUpdate` and `onLoadedMetadata` are left out: the model cannot see their code. `onIndexChange` is recorded as the `notified` log.
- Floating point: progress arithmetic uses exact reals, so the model has no rounding and no NaN or Infinity.
- ReelPlayback.Reel.ImageFrame: requires a non-zero duration while a frame is pending, because JavaScript would compute Infinity or NaN there.
- ReelPlayback.VideoProgress: requires a non-zero video duration. Its callers only use it after the code's own guard on the duration.
- An empty `data` array is not treated specially. The reel's methods accept any length, and `CurrentItem` is then absent.
- `TreeItem`'s open state lives in library hooks and components that are not part of this model.
- FileIcons.Lower: lower-cases ASCII letters only, not the full Unicode case mapping of `toLowerCase`.
- FileIcons.Split and MessageActions.AvatarFallback: strings are sequences of characters, not UTF-16 code units. `name?.slice(0, 2)` counts code units, so for a name that starts with a character outside the Basic Multilingual Plane, such as an emoji, the code shows that one symbol and the model shows two characters.
- ReelPlayback.Reel.Click, MessageActions.ClickCalls and MessageActions.ButtonOf: the caller's own props are not modelled. They are spread after the component's attributes, at packages/reel/index.tsx:546-547 and packages/ai/message.tsx:182-187, so a caller's `onClick` or `title` would replace the modelled click handler or label title. `ClickCalls` models `handleClick` itself. A button disabled through `disabled: true` never runs it, and `ClickCalls` does not look at `disabled`.
- MessageActions: handlers and icons are opaque tokens. The asynchrony of handlers is left out; `BuiltInEffect` says what the copy and share defaults ask of the browser.
- The `from` styling of AI messages, and every other package (color picker, tweet, credit card, sidebar scroll persistence, roadmap and gantt examples), are not part of this model.

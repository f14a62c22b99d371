# His Holiness chat: a verified model of its logic

The application is a confession chat with a rotating, floating head of the
Pope above a fire overlay. Users type or pick a confession. The bot answers
through a language model, and "absolve" burns the chat away. Most of the code
is interface glue. This project models the parts that hold logic you can state
and proves properties about them:

- the colour and text helpers (`lerpColor`, `truncateText`,
  `formatRelativeTime`, the checkerboard fill);
- the non-trigonometric laws of the fire overlay: the particle life-cycle, the
  colour ramp, the smoke laws, the flame-mesh index buffer, the per-frame
  instance-buffer fill and the width-tier step functions;
- the Convex message store (`list`, `send`, `clear`, `sendBotMessage` and the
  reply step of `generateBotReply`), over a table and a job queue;
- the small state machines: the spin ("dizzy") detector and camera reset, the
  error boundary, the absolve flow, user identity over local storage, the
  scroll flags, the viewport and keyboard flags, the two confession dropdowns,
  the typing animation and the chat-input submit guard;
- the geometric helpers of the DOM utilities.

Effects of the browser and of the libraries become explicit state:
- local storage is a `map` in the class `Storage.LocalStorage`;
- the body's class list, `window.initialHeight` and `scrollY` are fields of
  `DomUtils.Page`;
- the database is a sequence with a job queue (`Messages.Store`);
- the instance buffer of a mesh is an `array` (`FireOverlay.InstanceMesh`);
- timers are explicit methods that fire a pending timeout or interval tick.

Values the program draws from outside are parameters:
- `Date.now()` and the animation clock;
- `Math.random()`, as draws in [0, 1);
- `crypto.randomUUID()`, as a fresh string;
- the result of the language-model call, as the datatype
  `Messages.Completion`;
- `Math.sin` in the opacities, as a function of the caller's choosing.

JavaScript's built-ins are written out in `JsBuiltins`, with their edge cases:
- `parseInt(s, 16)`: leading white space, sign, `0x` prefix, the longest
  hex-digit prefix, and NaN as `None`;
- the 32-bit `<<` and `>>`, and `& 0xff`;
- `Math.round` and `Math.floor`;
- the truncating `%` on numbers;
- `toString(16)`;
- `slice` with negative ends;
- `trim` and its white-space set.

Several source files repeat the same code. Each such piece is modelled once:
- `fireColors` and `FIRE_COLORS` are one palette;
- the copy of `lerpColor` in the overlay is `TextUtils.LerpColor`;
- the checkerboard copy in the main app is `TextUtils.FillCheckerboard`;
- the two error boundaries are `ModelView.ErrorBoundary`;
- the two spin detectors are one class with two constructors;
- the two typing animations are `ChatMessage.TypedMessage`;
- the three chat inputs are `ChatInput.Input`. The oldest input has no
  `onConfess`, so it is `hasConfess == false`;
- the two dropdowns share the placement functions.

## Model

| member | source | states |
|---|---|---|
| TextUtils.RemoveFirstHash | src/utils/textUtils.ts:35-36 | `replace("#", "")` drops the first `#` when the string starts with one, and leaves a string without `#` unchanged |
| TextUtils.Channels | src/utils/textUtils.ts:35-38 | the three channels extracted with `>>` and `& 0xff` are bytes for every input string, including unparsable ones (NaN gives 0) |
| TextUtils.ChannelsOfHexColor | src/utils/textUtils.ts:35-38 | for a `#rrggbb` colour, the channels are the hex value of the six digits split into bytes |
| TextUtils.FormatByteRgb | src/utils/textUtils.ts:42 | formatting byte channels gives `#` followed by exactly six lower-case hex digits of the packed value |
| TextUtils.HexOfShiftedSum | src/utils/textUtils.ts:42 | `((1 << 24) + (r << 16) + (g << 8) + b).toString(16)` is "1" followed by the six zero-padded digits |
| TextUtils.FormatChannelsOfHexColor | src/utils/textUtils.ts:35-42 | parsing a lower-case `#rrggbb` colour and formatting it back gives the same string |
| TextUtils.ChannelsOfFormat | src/utils/textUtils.ts:35-42 | formatting byte channels and parsing them back gives the same channels |
| TextUtils.UnpackPack | src/utils/textUtils.ts:37-42 | packing byte channels into 24 bits and splitting them again is the identity |
| TextUtils.PackUnpack | src/utils/textUtils.ts:37-42 | splitting a 24-bit value into channels and packing them again is the identity |
| TextUtils.LerpColor | src/utils/textUtils.ts:34-42 | `lerpColor` parses both colours into channels, blends each channel with `Math.round` and formats the result; what it promises is stated by LerpColorAtZero, LerpColorAtOne, LerpColorSame and LerpColorInRange below |
| TextUtils.LerpColorAtZero | src/utils/textUtils.ts:34-42 | `lerpColor(a, b, 0) == a` for a lower-case `#rrggbb` colour `a` |
| TextUtils.LerpColorAtOne | src/utils/textUtils.ts:34-42 | `lerpColor(a, b, 1) == b` for a lower-case `#rrggbb` colour `b` |
| TextUtils.LerpColorSame | src/utils/textUtils.ts:39-42 | `lerpColor(a, a, t) == a` for every `t`, for a lower-case `#rrggbb` colour `a` |
| TextUtils.LerpColorInRange | src/utils/textUtils.ts:34-42 | for `t` in [0, 1] the result is a `#rrggbb` colour, and each channel lies between the two input channels |
| TextUtils.LerpRgbBetween | src/utils/textUtils.ts:39-41 | the rounded per-channel interpolation of byte channels stays a byte and stays between the two ends |
| TextUtils.LerpChannelBetween | src/utils/textUtils.ts:39-41 | `round(a + (b - a) t)` lies between `a` and `b` for `t` in [0, 1] |
| TextUtils.LerpRgbEnds | src/utils/textUtils.ts:39-41 | interpolation at `t = 0` gives the first colour and at `t = 1` the second |
| TextUtils.TruncateText | src/utils/textUtils.ts:51-54 | a text no longer than the limit is returned unchanged; for a limit of at least 3, a longer text becomes its first `maxLength - 3` characters plus "...", exactly `maxLength` long |
| TextUtils.TruncateTextBelowThree | src/utils/textUtils.ts:52-53 | as written, a limit below 3 gives a result longer than the limit, as long as the whole text for limit 0 |
| TextUtils.TruncateTextZeroLimitWitness | src/utils/textUtils.ts:52-53 | as written, `truncateText("abcdefghij", 0)` is "abcdefg..." |
| TextUtils.TruncateTextClamped | src/utils/textUtils.ts:51-54 | the corrected truncation keeps a short text, and otherwise gives a prefix of the text plus "..." that is never longer than `max(maxLength, 3)` |
| TextUtils.TruncateTextAgrees | src/utils/textUtils.ts:51-54 | for every limit of at least 3 the corrected truncation equals the source's |
| TextUtils.CountAgo | src/utils/textUtils.ts:73-85 | the unit is singular exactly when the count is 1, and the phrase starts with the decimal count |
| TextUtils.FormatRelativeTime | src/utils/textUtils.ts:61-90 | the phrase for the time elapsed since `timestamp`, in the source's order of buckets; JustNowIff, MinuteBucket, HourBucket, DayBucket and LocaleDateIff state which bucket each elapsed time falls in |
| TextUtils.JustNowIff | src/utils/textUtils.ts:66-68 | the phrase is "just now" exactly when the difference is below one minute, including negative differences |
| TextUtils.MinuteBucket | src/utils/textUtils.ts:71-74 | in the minute bucket the count is the floor of the minutes, in [1, 59] |
| TextUtils.HourBucket | src/utils/textUtils.ts:77-80 | in the hour bucket the count is the floor of the hours, in [1, 23] |
| TextUtils.DayBucket | src/utils/textUtils.ts:83-86 | in the day bucket the count is the floor of the days, in [1, 6] |
| TextUtils.LocaleDateIff | src/utils/textUtils.ts:83-90 | the locale date is used exactly when the difference is at least one week |
| TextUtils.WholeUnits | src/utils/textUtils.ts:72-84 | `Math.floor(diff / unit)` is the number of whole units in the difference |
| TextUtils.SquareColor | src/utils/textUtils.ts:17 | the colour of square (x, y) by the parity of x + y; NeighboursDiffer and FillCheckerboard state its laws |
| TextUtils.NeighboursDiffer | src/utils/textUtils.ts:17 | squares next to each other, horizontally or vertically, always have different colours |
| TextUtils.FillCheckerboard | src/utils/textUtils.ts:15-20 | after the nested loops, every square (x, y) of the grid holds "#f3e9c7" when x + y is even and "#3b3b3b" otherwise |
| JsBuiltins.TrimIsEmptyIffBlank | src/components/chat/ChatInput.tsx:44-54 | `s.trim()` is empty exactly when every character of `s` is white space |
| JsBuiltins.TrimStart | src/components/chat/ChatInput.tsx:44 | trimming the start drops exactly the leading white space |
| JsBuiltins.TrimEnd | src/components/chat/ChatInput.tsx:44 | trimming the end drops exactly the trailing white space |
| JsBuiltins.HexPrefixLength | src/utils/textUtils.ts:35-36 | `parseInt(s, 16)` reads the longest prefix of hex digits and stops at the first other character |
| JsBuiltins.HexValueOfPad | src/utils/textUtils.ts:35-42 | reading back the zero-padded digits of a value gives the value |
| JsBuiltins.HexPadOfValue | src/utils/textUtils.ts:35-42 | padding the value of a lower-case digit string to its own length gives the string back |
| JsBuiltins.HexStringOfLeadingOne | src/utils/textUtils.ts:42 | `toString(16)` of `16^k + v` is "1" followed by `v` padded to `k` digits |
| JsBuiltins.ToInt32 | src/utils/textUtils.ts:37-42 | the 32-bit conversion behind `<<` and `>>` yields a signed 32-bit value and leaves such a value unchanged |
| JsBuiltins.ToInt32Congruent | src/utils/textUtils.ts:37-42 | the 32-bit conversion is congruent to its input modulo 2^32 |
| JsBuiltins.ByteAt | src/utils/textUtils.ts:37-38 | `(x >> k) & 0xff` is a byte for every input, and NaN reads as 0 |
| JsBuiltins.Round | src/utils/textUtils.ts:39-41 | `Math.round(x)` is the integer within one half of `x`, with halves rounded up |
| JsBuiltins.Rem | src/components/FireOverlay3D.tsx:148 | the `%` on numbers truncates, so its result has the sign of the dividend and is smaller in size than the divisor |
| JsBuiltins.RemBounds | src/components/FireOverlay3D.tsx:148 | the truncating remainder lies in [0, y) for a non-negative dividend and in (-y, 0] for a negative one |
| JsBuiltins.RelativeIndex | src/utils/textUtils.ts:53 | a `slice` end is used as it is when it is in range, and counted from the end when it is negative |
| FireOverlay.FireColorsWellFormed | src/components/FireOverlay3D.tsx:6-16 | the palette has nine entries, each a lower-case `#rrggbb` colour; the shared `FIRE_COLORS` is the same list |
| FireOverlay.Progress | src/components/FireOverlay3D.tsx:148 | the sawtooth progress `((t * speed + phase) % lifetime) / lifetime` with JavaScript's truncating `%`; ProgressInUnit bounds it, ProgressPeriodic makes it repeat and ProgressSawtooth pins three points |
| FireOverlay.ProgressInUnit | src/components/FireOverlay3D.tsx:148 | with `t`, `speed` and `flickerPhase` non-negative and a positive lifetime, the sawtooth progress lies in [0, 1) |
| FireOverlay.ProgressPeriodic | src/components/FireOverlay3D.tsx:148 | for a positive speed each particle's life repeats: advancing the clock by `lifetime / speed` gives the same progress |
| FireOverlay.ProgressSawtooth | src/components/FireOverlay3D.tsx:148 | with lifetime 1, speed 1 and phase 0 the progress is 0 at t = 0, 0.5 at t = 0.5 and back to 0 at t = 1 |
| FireOverlay.RampColor | src/components/FireOverlay3D.tsx:241-243 | the fire colour at progress `cp`: the segment `floor(cp * (n - 2))` of the palette blended at the fractional part; RampUndefinedIff, RampIndexInRange and FireRampAtKnot state where it is defined, that it stays in the palette and that it hits every knot |
| FireOverlay.RampPick | src/components/FireOverlay3D.tsx:243 | `lerpColor(palette[idx], palette[idx + 1], colorT)`, undefined where either entry is missing; RampUndefinedIff states when |
| FireOverlay.RampUndefinedIff | src/components/FireOverlay3D.tsx:241-243 | the ramp reads outside the palette exactly when `floor(cp * (n - 2))` is negative or its successor is out of bounds |
| FireOverlay.RampIndexInRange | src/components/FireOverlay3D.tsx:241-243 | for progress in [0, 1) the index `floor(progress * 7)` lies in [0, 6], so both palette reads are in bounds and the colour is well formed |
| FireOverlay.FireRampAtKnot | src/components/FireOverlay3D.tsx:241-243 | at progress `k / 7` the colour is exactly palette entry `k` |
| FireOverlay.SmokeSize | src/components/FireOverlay3D.tsx:155 | the smoke size `size * (0.8 + 0.7 p)`; SmokeSizeMonotone states that smoke grows as it rises |
| FireOverlay.SmokeSizeMonotone | src/components/FireOverlay3D.tsx:155 | the smoke size `size * (0.8 + 0.7 p)` does not decrease as progress grows |
| FireOverlay.SmokeOpacity | src/components/FireOverlay3D.tsx:158 | for progress in [0, 1) the smoke opacity lies in (0.06, 0.3] |
| FireOverlay.SmokeOpacityMonotone | src/components/FireOverlay3D.tsx:158 | the smoke opacity does not increase as progress grows |
| FireOverlay.SmokeColor | src/components/FireOverlay3D.tsx:167-169 | the smoke colour: the dark tip past progress 0.7, the two-stop blend before; SmokeColorLaw and SmokeColorAtBirth state its values |
| FireOverlay.SmokeColorLaw | src/components/FireOverlay3D.tsx:167-169 | the smoke colour is exactly "#2d1a00" past progress 0.7; before that it is a well-formed colour channel-wise between "#4e342e" and "#2d1a00" |
| FireOverlay.SmokeColorAtBirth | src/components/FireOverlay3D.tsx:167-169 | at progress 0 the smoke is "#4e342e" |
| FireOverlay.NewSmokeParticle | src/components/FireOverlay3D.tsx:123-139 | a smoke particle built from random draws has speed, lifetime, size, phase and height in the ranges the initialiser gives |
| FireOverlay.NewFireParticle | src/components/FireOverlay3D.tsx:198-215 | a fire particle built from random draws has speed, lifetime, size, phase and height in the ranges the initialiser gives |
| FireOverlay.EmberColorIndex | src/components/FireOverlay3D.tsx:75 | `Math.floor(Math.random() * 3)` lies in [0, 2] |
| FireOverlay.EmberColor | src/components/FireOverlay3D.tsx:75 | an ember's colour is one of the first three palette entries |
| FireOverlay.FireOpacity | src/components/FireOverlay3D.tsx:246 | for progress in [0, 1) and any sine value, the fire opacity lies in (0.03, 0.88] |
| FireOverlay.InstanceMesh.constructor | src/components/FireOverlay3D.tsx:141-145 | a mesh has one slot per particle, all initial, and no pending update |
| FireOverlay.FillFrame | src/components/FireOverlay3D.tsx:145-177 | after one frame every slot i holds the value computed from particle i alone; the shared opacity is the last particle's (unchanged with no particles); the buffer is flagged for upload |
| FireOverlay.SmokeRise | src/components/FireOverlay3D.tsx:151 | the smoke height `y + 1.2 p`; SmokeFrame states that each slot holds it |
| FireOverlay.SmokeFrame | src/components/FireOverlay3D.tsx:141-178 | every smoke slot holds its particle's progress, rise, size and colour; the material opacity is the last particle's, within (0.06, 0.3] |
| FireOverlay.FireFrame | src/components/FireOverlay3D.tsx:217-273 | every fire slot holds its particle's values with a well-formed ramp colour; the material opacity is the last particle's |
| FireOverlay.CreateFlameGeometry | src/components/FireOverlay3D.tsx:31-61 | the 8-segment flame has the tip and 9 base vertices and 27 indices, all below 10; the fan triangles are `(0, i, i + 1)` plus the closing `(0, 8, 1)`, so every triangle contains vertex 0 |
| ResponsiveFire.FlameVertexCounts | backup/src/effects/FireOverlay3D.tsx:20-68 | the 12-segment flame has 26 vertices: the tip, then 5 at mid height, 7 at quarter height and 13 at the base |
| ResponsiveFire.RingCounts | backup/src/effects/FireOverlay3D.tsx:31-64 | after n ring steps, the vertices at each level number as the step rule adds them |
| ResponsiveFire.RingLength | backup/src/effects/FireOverlay3D.tsx:31-64 | after n ring steps there are `n + (n + 2) / 3 + (n + 1) / 2` ring vertices |
| ResponsiveFire.FlameVertices | backup/src/effects/FireOverlay3D.tsx:15-68 | the vertex loop lays out the tip followed by the ring, 26 vertices in all |
| ResponsiveFire.FanIndices | backup/src/effects/FireOverlay3D.tsx:71-74 | the fan loop lays `(0, i, i + 1)` for each i, then closes with `(0, vertexCount - 1, 1)` |
| ResponsiveFire.StripIndices | backup/src/effects/FireOverlay3D.tsx:77-81 | the strip loop appends `(i, i + 1, i + 2)` for every odd i and keeps the fan |
| ResponsiveFire.TriangulateFlame | backup/src/effects/FireOverlay3D.tsx:68-81 | the index buffer is the fan triangles, the closing triangle and the strip triangles, in that order |
| ResponsiveFire.TriangulationInBounds | backup/src/effects/FireOverlay3D.tsx:71-81 | every fan and strip index is below `vertexCount` |
| ResponsiveFire.CreateFlameGeometry12 | backup/src/effects/FireOverlay3D.tsx:15-88 | the 12-segment flame has 26 vertices and 111 indices (25 fan and 12 strip triangles), every index below 26 |
| ResponsiveFire.NewBiasedFireParticle | backup/src/effects/FireOverlay3D.tsx:231-254 | speed, lifetime, phase, `colorBias` in [0, 0.3) and flicker frequency lie in the initialiser's ranges |
| ResponsiveFire.ColorProgress | backup/src/effects/FireOverlay3D.tsx:286 | the biased colour progress `progress * (1 - colorBias)`; ColorProgressRange bounds it and BiasedColorIndexInRange keeps the ramp inside the palette |
| ResponsiveFire.ColorProgressRange | backup/src/effects/FireOverlay3D.tsx:286 | `progress * (1 - colorBias)` lies between 0 and the progress |
| ResponsiveFire.BiasedColorIndexInRange | backup/src/effects/FireOverlay3D.tsx:286-289 | with `colorBias` in [0, 0.3) and progress in [0, 1), `colorIdx` lies in [0, length - 3], so the ramp is defined and well formed |
| ResponsiveFire.BiasedFireOpacity | backup/src/effects/FireOverlay3D.tsx:292-293 | for progress in [0, 1) and any sine value, the opacity lies in (0.08, 1.0] |
| ResponsiveFire.BiasedFireFrame | backup/src/effects/FireOverlay3D.tsx:256-326 | every slot holds its particle's values with a well-formed biased ramp colour; the material opacity is the last particle's |
| ResponsiveFire.CalculateZoom | backup/src/effects/FireOverlay3D.tsx:377-389 | the zoom is one of 70, 80, 90, 100 and 120 |
| ResponsiveFire.ZoomTiers | backup/src/effects/FireOverlay3D.tsx:377-389 | 70 below width 360, 80 below 480, 90 below 640, 100 below 768, and 120 otherwise, each both ways |
| ResponsiveFire.ZoomMonotone | backup/src/effects/FireOverlay3D.tsx:377-389 | the zoom does not decrease as the width grows |
| ResponsiveFire.ZoomExamples | backup/src/effects/FireOverlay3D.tsx:377-389 | widths 359, 480 and 1024 get zoom 70, 90 and 120 |
| ResponsiveFire.Camera.constructor | backup/src/effects/FireOverlay3D.tsx:392-395 | a camera has its kind and zoom as given |
| ResponsiveFire.ApplyZoom | backup/src/effects/FireOverlay3D.tsx:392-395 | an orthographic camera gets the computed zoom; any other camera keeps its zoom |
| ResponsiveFire.ScreenSizeTiers | backup/src/effects/FireOverlay3D.tsx:415-424 | the flags depend on the width alone, and a window narrower than a mobile (or small-mobile) one is mobile (or small-mobile) too; the measured size is kept |
| ResponsiveFire.SmallMobileIsMobile | backup/src/effects/FireOverlay3D.tsx:419-420 | a small-mobile screen is a mobile screen |
| ResponsiveFire.FireParticleCount | backup/src/effects/FireOverlay3D.tsx:437 | the fire particle count of a screen tier; ParticleCounts gives the values and their growth with the width |
| ResponsiveFire.SmokeParticleCount | backup/src/effects/FireOverlay3D.tsx:438 | the smoke particle count of a screen tier; ParticleCounts gives the values and their growth with the width |
| ResponsiveFire.ParticleCounts | backup/src/effects/FireOverlay3D.tsx:437-438 | the fire and smoke counts are 80/15, 120/25 and 220/50 for small-mobile, mobile and desktop, and neither decreases as the width grows |
| ResponsiveFire.ContainerStyleOf | backup/src/effects/FireOverlay3D.tsx:441-466 | `minHeight` is set exactly on mobile, and `transform` exactly on small-mobile |
| ResponsiveFire.ContainerStyleByWidth | backup/src/effects/FireOverlay3D.tsx:455-463 | by width: "scale(1.1)" and "250px" below 480, "300px" from 480 up to 768, and neither from 768 up |
| Messages.StoredOwnerIsTruthy | convex/messages.ts:36-38 | a stored owner is never the empty id: it is absent or the given truthy id, every truthy id is kept, and storing it again changes nothing |
| Messages.List | convex/messages.ts:11-22 | with a truthy `userId`, the listed messages are exactly that owner's; otherwise all messages are listed |
| Messages.ListOfAppend | convex/messages.ts:11-22 | listing keeps insertion order: the list of a longer table extends the list of its prefix |
| Messages.Owned | convex/messages.ts:12-16 | the messages owned by a user, in table order, never more than the table; OwnedMembership states which |
| Messages.Others | convex/messages.ts:58-72 | the messages a clear of a user leaves, in table order, never more than the table; OthersMembership states which |
| Messages.OwnedMembership | convex/messages.ts:12-16 | the owner filter keeps exactly the messages with that `userId` |
| Messages.OthersMembership | convex/messages.ts:58-72 | the complement filter keeps exactly the messages with another or no owner |
| Messages.KeepMembership | convex/messages.ts:70-72 | deleting a set of ids keeps exactly the messages whose ids are not in it |
| Messages.KeepKeep | convex/messages.ts:70-72 | two deletions in a row delete the union of their ids |
| Messages.KeepOwnedIds | convex/messages.ts:58-72 | with unique ids, deleting the ids of an owner's messages leaves exactly the other messages, in order |
| Messages.KeepUnique | convex/messages.ts:70-72 | deletion keeps ids unique |
| Messages.ClearTargetsDeleted | convex/messages.ts:58-72 | deleting every collected message leaves the other owners' messages with a truthy `userId`, and the empty table otherwise |
| Messages.Fallback | convex/messages.ts:159-164 | status 429 gives the dizzy text, 401 the permissions text, and anything else the default text, each both ways |
| Messages.ReplyText | convex/messages.ts:149-166 | the reply is never empty: it is the model's content when that is present and non-empty, and one of the three fallbacks otherwise |
| Messages.EmptyReplyGetsDefault | convex/messages.ts:150-159 | missing or empty content gives the default fallback |
| Messages.Store.constructor | convex/schema.ts:6-10 | the table and the job queue start empty |
| Messages.Store.Insert | convex/messages.ts:40 | an insert appends one record with a new id, the body, the author and the owner only if truthy |
| Messages.Store.Delete | convex/messages.ts:71 | a delete removes exactly the record with that id |
| Messages.Store.Send | convex/messages.ts:26-50 | `send` appends exactly one message, and schedules one bot-reply job exactly when the author is "the Penitent" |
| Messages.Store.SendBotMessage | convex/messages.ts:76-92 | `sendBotMessage` appends one message by "Pope Francis", owned only when `userId` is truthy, and schedules nothing |
| Messages.Store.Clear | convex/messages.ts:52-74 | the delete loop leaves exactly the other owners' messages, in order, when `userId` is truthy, and the empty table otherwise |
| Messages.Store.RunNextJob | convex/messages.ts:94-169 | running a scheduled reply inserts exactly one message by the Pope, with the reply or a fallback, for the job's owner, and dequeues the job |
| Messages.ClearedUserListsNothing | convex/messages.ts:58-72 | after a user's clear, that user's list is empty |
| Messages.ClearKeepsOtherUsers | convex/messages.ts:58-72 | a user's clear leaves every other user's messages exactly as they were |
| Messages.SentMessageListedLast | convex/messages.ts:30-40 | a message sent with a truthy id appears last in that user's list |
| Messages.AnonymousMessageUnlisted | convex/messages.ts:11-40 | a message sent without a truthy id appears in no user's list, only in the full list |
| Storage.LocalStorage.constructor | src/App.tsx:31 | the store starts with the entries given |
| Storage.LocalStorage.SetItem | src/App.tsx:34 | after `setItem`, `getItem` of the key returns the value and every other key reads as before |
| Storage.LocalStorage.RemoveItem | src/hooks/useUserIdentity.ts:42 | after `removeItem`, `getItem` of the key returns null and every other key reads as before |
| UserIdentity.GetUserId | src/App.tsx:30-37 | a truthy stored id is returned and storage is unchanged; otherwise the fresh id is stored under 'popeUserId' and returned |
| UserIdentity.GetUserIdTwice | src/App.tsx:30-37 | a second call returns the same id as the first |
| UserIdentity.InitIdentity | src/hooks/useUserIdentity.ts:16-29 | an existing user keeps the id, is not new, and has seen the welcome exactly when the flag is 'true'; a new user gets the fresh id, is new and has not seen the welcome, whatever the flag |
| UserIdentity.InitIdentityTwice | src/hooks/useUserIdentity.ts:16-29 | running the initialisation twice yields the same id, and the second run finds an existing user |
| UserIdentity.MarkWelcomeAsShown | src/hooks/useUserIdentity.ts:34-36 | only 'popeWelcomeShown' changes, to 'true' |
| UserIdentity.ClearWelcomeFlag | src/hooks/useUserIdentity.ts:41-43 | only 'popeWelcomeShown' is removed |
| UserIdentity.MarkThenInit | src/hooks/useUserIdentity.ts:19-36 | after marking the welcome as shown, an existing user's identity reports it as shown |
| ModelView.DefaultViewAroundFront | src/App.tsx:146 | the camera's starting front view (azimuth 0, polar pi/2) is the default view, the band around it is symmetric left and right, and a turn of 0.1 either way leaves it |
| ModelView.RotationSpeed | src/App.tsx:153-156 | the speed is non-negative, and zero exactly when the azimuth did not change |
| ModelView.SpinDetector.Inline | src/App.tsx:124-159 | the main app's detector has threshold 2 and cooldown 10000 ms and starts at the default view |
| ModelView.SpinDetector.Shared | backup/src/model/ModelComponents.tsx:128-164 | the backup's detector uses `SPIN_THRESHOLD` 3.5 and `DIZZY_COOLDOWN` 20000 ms |
| ModelView.SpinDetector.HandleCameraChange | src/App.tsx:139-178 | the default flag follows the angles; a non-positive time step changes nothing else; otherwise the speed is computed and the position and time are recorded, and a dizzy message is sent, with `lastDizzy` set to now, exactly when the speed exceeds the threshold and the cooldown has passed; the reset button shows afterwards exactly when the new view is not the default |
| ModelView.SpinDetector.ResetCamera | src/App.tsx:181-195 | a reset runs the change handler with the camera back at the front view at the given time, so it records the angle and time and can post the dizzy message, and then leaves the default view set and the reset button hidden |
| ModelView.ResetAfterFastTurnPostsDizzy | src/App.tsx:139-195 | after a turn to azimuth 1.5, a reset 500 ms later swings back at 3 per second and posts the dizzy message |
| ModelView.DizzyMessagesSpacedOut | src/App.tsx:159-171 | any two dizzy messages lie more than the cooldown apart |
| ModelView.SpacedExtend | src/App.tsx:161-171 | a message sent after the cooldown keeps all the messages spaced |
| ModelView.ErrorBoundary.constructor | backup/src/model/ModelComponents.tsx:64-81 | a boundary starts without an error and renders its children |
| ModelView.ErrorBoundary.CatchError | src/App.tsx:79-96 | once an error is caught the flag is set and the fallback is rendered |
| App.ChatRoom.constructor | src/App.tsx:271-285 | the room starts with the modal hidden and nothing burning, which satisfies its invariant that the modal is never open while burning |
| App.ChatRoom.Visible | src/App.tsx:276 | the room shows exactly the messages owned by its user |
| App.ChatRoom.HandleClear | src/App.tsx:422-428 | a click on ABSOLVE opens the modal when nothing burns; while burning the button is disabled and the click changes nothing |
| App.ChatRoom.HandleConfirmAbsolve | src/App.tsx:297-304 | confirming, from the open modal, closes it, starts burning and so schedules the one pending clear |
| App.ChatRoom.HandleCancelAbsolve | src/App.tsx:306-308 | cancelling, from the open modal, only closes it |
| App.ChatRoom.BurnTimerFires | src/App.tsx:300-303 | the timer, pending exactly while burning, clears this user's messages (all of them without an id) and stops the burning |
| App.ChatRoom.HandleSendMessage | src/App.tsx:311-317 | a message goes into the store with author "the Penitent" and the room's id, and a bot reply is scheduled |
| App.HandleSelectConfession | src/App.tsx:320-324 | when the input's ref holds a handle the confession replaces the input's value and no callback runs; without a handle nothing changes |
| App.MainAppSelectionIgnored | src/App.tsx:320-324 | the main app's input exposes no handle, so a picked confession leaves the input's value and calls as they were |
| App.ForwardedSelectionFills | src/App.tsx:320-324 | an input that forwards its ref and exposes `setValue` is filled with the picked confession |
| App.AbsolveFlow | src/App.tsx:293-308 | open, confirm, a second ABSOLVE while burning and the timer together empty the user's view, leave everyone else's messages and end with the modal closed and nothing burning |
| Scrolling.Container.constructor | src/hooks/useScrolling.ts:39-41 | a container has the given scroll height, scroll top and client height |
| Scrolling.IsScrolledUp | src/hooks/useScrolling.ts:44-45 | the button shows beyond 100 px from the bottom; FlagsExclusive relates it to the auto-scroll flag |
| Scrolling.ShouldAutoScroll | src/hooks/useScrolling.ts:47-48 | new content is followed within 50 px of the bottom; FlagsExclusive relates it to the scrolled-up flag |
| Scrolling.FlagsExclusive | src/hooks/useScrolling.ts:44-48 | the two flags are never both set, and both are clear exactly for distances in [50, 100] |
| Scrolling.ScrollState.constructor | src/hooks/useScrolling.ts:16-17 | the state starts not scrolled up and auto-scrolling |
| Scrolling.ScrollState.HandleScroll | src/hooks/useScrolling.ts:39-49 | scrolled up holds exactly above distance 100, and auto-scroll exactly below 50 |
| Scrolling.ScrollState.ScrollToBottom | src/hooks/useScrolling.ts:21-31 | the container ends at its largest scroll position, scrolled-up is cleared and auto-scroll set, and a later scroll event there computes the same two flags |
| Scrolling.ScrollState.OnMutation | src/hooks/useScrolling.ts:74-84 | when auto-scrolling, new content moves the container to its bottom as the browser clamps it, leaving no distance; otherwise nothing moves; the heights are untouched |
| Scrolling.ScrolledUpStaysPut | src/hooks/useScrolling.ts:39-84 | a user scrolled more than 100 above the bottom is not pulled down by new content |
| Viewport.WidthFlags | src/hooks/useViewport.ts:25-26 | small-mobile implies mobile, and the flags agree with the fire overlay's screen-size flags |
| Viewport.DetectKeyboard | src/hooks/useViewport.ts:42-57 | `initialHeight` is captured only when unset; the keyboard counts as visible exactly when the inner height is below 0.8 of it; the body class follows; nothing else changes |
| Viewport.FirstHeightShowsNoKeyboard | src/hooks/useViewport.ts:44-51 | right after capturing the initial height no keyboard is detected |
| Viewport.HandleResize | src/hooks/useViewport.ts:60-92 | a resize recomputes the width flags and the keyboard flag from the current size, giving the state the hook would start with in that window apart from the keyboard flag; the `keyboard-visible` class mirrors the flag; no other class, the window size, the scroll and the pending scroll stay |
| Viewport.ResizeKeepsInitialHeight | src/hooks/useViewport.ts:44-92 | a captured `initialHeight` is never overwritten, so the keyboard is judged against it |
| Viewport.PreventInputScroll | src/hooks/useViewport.ts:112-134 | focus adds 'input-focused' and 'keyboard-visible' and schedules a scroll to `max(0, top + scrollY - 60 - 20)`, which is never negative |
| Viewport.FocusTargetIsAdjustedPosition | src/hooks/useViewport.ts:127-128 | the focus scroll target equals the adjusted scroll position with its default header height and padding |
| Viewport.ScrollTimerFires | src/hooks/useViewport.ts:127-133 | the pending scroll, if any, is applied once; the classes, the initial height and the window size stay |
| Viewport.HandleInputBlur | src/hooks/useViewport.ts:139-145 | blur removes both classes; the scroll, the pending scroll, the initial height and the window size stay |
| Viewport.FocusThenBlur | src/hooks/useViewport.ts:121-145 | after focus then blur neither class remains, and the other classes are as before |
| DomUtils.Page.constructor | src/utils/domUtils.ts:42-52 | a page starts unscrolled with no body classes and no captured height |
| DomUtils.FindInputByPlaceholder | src/utils/domUtils.ts:6-15 | the result is the first input whose placeholder matches, and null exactly when none matches |
| DomUtils.LockScrollPosition | src/utils/domUtils.ts:42-45 | locking adds 'input-focused', scrolls to the position and leaves the other classes |
| DomUtils.UnlockScrollPosition | src/utils/domUtils.ts:50-52 | unlocking removes 'input-focused' and nothing else |
| DomUtils.LockThenUnlock | src/utils/domUtils.ts:42-52 | lock then unlock leaves every other class as before and 'input-focused' unset |
| DomUtils.AdjustedScrollPosition | src/utils/domUtils.ts:61-71 | the position is `max(0, top + scrollY - headerHeight - padding)` and never negative |
| DomUtils.SmoothScrollTargetUnclamped | src/utils/domUtils.ts:78-87 | unlike the adjusted position, the smooth-scroll target can be negative |
| DomUtils.AdjustedIsClampedTarget | src/utils/domUtils.ts:61-87 | the adjusted position is the smooth-scroll target clamped at 0 |
| DomUtils.IsElementInViewport | src/utils/domUtils.ts:95-113 | inside the window on every side, or overlapping it; FullyVisibleIsVisible, InvertedRectNotImplied and FullyVisibleHasRoomBelow relate the two tests |
| DomUtils.FullyVisibleIsVisible | src/utils/domUtils.ts:95-113 | for a well-formed rect, fully visible implies partly visible |
| DomUtils.InvertedRectNotImplied | src/utils/domUtils.ts:95-113 | for an inverted rect, fully visible does not imply partly visible |
| DomUtils.DistanceFromBottom | src/utils/domUtils.ts:120-123 | the distance is non-negative exactly when the bottom is inside the window |
| DomUtils.FullyVisibleHasRoomBelow | src/utils/domUtils.ts:95-123 | a fully visible element has a non-negative distance from the bottom |
| ConfessionDropdown.Confessions | src/components/ConfessionDropdown.tsx:19-44 | the list is the 9 venial sins exactly for 'venial', and the 8 mortal sins otherwise |
| ConfessionDropdown.DefaultIsVenial | src/components/chat/ConfessionDropdown.tsx:20-39 | without a kind, the chat dropdown lists the venial sins |
| ConfessionDropdown.VerticalPlacementKeepsMenuVisible | src/components/ConfessionDropdown.tsx:69-76 | an upward menu fits above the button; a downward menu fits below or has no room above either; a menu that fits below always drops down |
| ConfessionDropdown.HorizontalPlacement | src/components/ConfessionDropdown.tsx:80-94 | right when half the menu does not fit to the right (checked first), else left when half does not fit to the left, else centre |
| ConfessionDropdown.CenteredMenuFits | src/components/ConfessionDropdown.tsx:80-94 | a centred menu lies within the window |
| ConfessionDropdown.RightWinsWhenCramped | src/components/ConfessionDropdown.tsx:80-94 | with no room on either side the menu aligns right |
| ConfessionDropdown.Dropdown.constructor | src/components/ConfessionDropdown.tsx:11-13 | a dropdown starts closed, dropping down and aligned right |
| ConfessionDropdown.Dropdown.Toggle | src/components/ConfessionDropdown.tsx:103-114 | a click flips `isOpen` and nothing else; on a disabled button it changes nothing |
| ConfessionDropdown.Dropdown.MouseDown | src/components/ConfessionDropdown.tsx:47-58 | a press outside closes the dropdown, and a press inside changes nothing |
| ConfessionDropdown.Dropdown.Reposition | src/components/ConfessionDropdown.tsx:61-95 | an open dropdown gets the vertical and horizontal placement for its width; a closed one keeps its placement |
| ConfessionDropdown.Dropdown.Select | src/components/ConfessionDropdown.tsx:98-101 | `onSelect` receives the confession once, and the dropdown closes |
| ConfessionDropdown.SelectionCalls | src/components/chat/ConfessionDropdown.tsx:107-121 | every call passes the chosen confession, no callback runs twice or out of the order hook, `onSelect`, `onSubmit`, the hook and `onSelect` always run, and `onSubmit` runs exactly when given |
| ConfessionDropdown.ChatDropdown.constructor | src/components/chat/ConfessionDropdown.tsx:20-26 | the chat dropdown starts closed, dropping down, aligned right and with no call made |
| ConfessionDropdown.ChatDropdown.Toggle | src/components/chat/ConfessionDropdown.tsx:56-196 | a click flips `isOpen` and refreshes the button position only when opening; on a disabled button it changes nothing |
| ConfessionDropdown.ChatDropdown.MouseDown | src/components/chat/ConfessionDropdown.tsx:42-53 | a press outside closes the dropdown, and a press inside changes nothing |
| ConfessionDropdown.ChatDropdown.CloseSheet | src/components/chat/ConfessionDropdown.tsx:140-143 | the mobile sheet's close button closes the dropdown |
| ConfessionDropdown.ChatDropdown.Reposition | src/components/chat/ConfessionDropdown.tsx:70-105 | placement is recomputed, with width 250, only when open and not on mobile |
| ConfessionDropdown.ChatDropdown.Select | src/components/chat/ConfessionDropdown.tsx:107-121 | a selection makes the calls in order and then closes the dropdown |
| ChatMessage.TypedMessage.constructor | src/components/ChatMessage.tsx:14-43 | a Pope message starts with empty text, typing, waiting for the start delay; any other message shows its whole body at once, not typing |
| ChatMessage.TypedMessage.StartDelayFires | src/components/ChatMessage.tsx:20-22 | after the 50 ms delay the interval starts with the counter at 0 |
| ChatMessage.TypedMessage.Tick | src/components/ChatMessage.tsx:22-30 | a tick with characters left shows one more and increments the counter; a tick at the end stops the typing and the interval; the shown text always stays the prefix of the counter's length |
| ChatMessage.TypedMessage.Shown | src/components/ChatMessage.tsx:57-64 | a message not by the Pope shows its body without a cursor; the shown text is always a prefix of the body; once stopped it is the whole body |
| ChatMessage.TypeOut | backup/src/chat/ChatMessage.tsx:17-47 | after the start delay and exactly body length + 1 ticks the whole body is shown and typing has ended |
| ChatInput.TrimmedEmpty | src/components/chat/ChatInput.tsx:44-54 | the guard holds exactly for values made of white space only |
| ChatInput.SubmitCalls | src/components/chat/ChatInput.tsx:43-58 | a blank value makes no call; any other value makes `onSubmit` with the untrimmed value, then `onConfess` exactly when it is given and the submission completed |
| ChatInput.Input.constructor | src/components/chat/ChatInput.tsx:18 | the input starts empty with no call made |
| ChatInput.Input.SetValue | src/components/chat/ChatInput.tsx:29-73 | `setValue` and `onChange` replace the value wholesale |
| ChatInput.Input.Submit | src/components/ChatInput.tsx:12-18 | a blank value returns early with nothing changed; otherwise `onSubmit` receives the untrimmed value, and the value becomes "" exactly when the submission completes |
| ChatInput.TypeAndSubmit | his_holiness_will_see_you_now_vze2nc/src/components/ChatInput.tsx:13-24 | typing a text and submitting it hands exactly that text on, unless it is blank, and leaves the field empty |

## Left out

- Trigonometry: the sine and cosine terms are left out. This covers the wobble, flicker, rotation and scale of the particles, the flame vertex coordinates, the ember flicker, `FireLight` and the model's oscillation. The flame vertices carry only their level (tip, mid, quarter, base), and the opacities take the sine as a parameter.
- Three.js and react-three-fiber are left out: `Canvas`, matrices, `computeVertexNormals`, `OrbitControls`, model loading, texture creation, and the `ModelLoader` and fallback rendering. The instance buffer is an array of slot values.
- FireOverlay.FillFrame: an instance slot records progress, rise, size and colour but not the transform matrix, which needs the trigonometric terms.
- The OpenAI request and the system prompt are left out. The reply is the input `Completion`: an answer with optional content, or a failure with an optional status.
- ModelView.SpinDetector.HandleCameraChange: the dizzy message is recorded as its send time in `dizzyTimes`. The `sendBotMessage` call it makes is `Messages.Store.SendBotMessage`, and the two are not chained.
- Messages.Store.RunNextJob: a failing `sendBotMessage` inside the reply's `try`, which would re-run the insert with a fallback text, is not modelled.
- Convex internals are left out: ids, `_creationTime`, the `order("asc")` index and the scheduler's timing. The table is a sequence in insertion order. The scheduled action is a queued job run by an explicit step.
- `toLocaleDateString` depends on the locale, so the formatted date is modelled only as the fact that the locale branch was taken (`LocaleDate`). The date-fns `format` of a message's time is left out for the same reason.
- TextUtils.TruncateText: only integer limits are modelled. A fractional `maxLength` would reach `slice` with a fractional end.
- `crypto.randomUUID()` is left out: the fresh id is a parameter.
- The `useMemo`, `useRef` and mount guards of React (`if (mesh.current)`) are left out. They only skip work before the component is mounted.
- `addTemporaryClass` and `setInputValueAndTriggerEvent` in the DOM utilities are left out. They only start timers and fire DOM events.
- `setAppHeight` (src/hooks/useViewport.ts:34-39) has no member of its own. The height it returns is the `appHeight` of Viewport.HandleResize's state; writing the `--app-height` property with `style.setProperty` is left out.
- The `behavior: 'smooth'` animation of `scrollTo` is left out, as is the `requestAnimationFrame` scheduling. A container scroll lands at once on its final position, which the browser clamps between 0 and `scrollHeight - clientHeight` (`Scrolling.Container.ScrollTo`); a window scroll is an immediate assignment of `scrollY`, and the pending focus scroll becomes `Viewport.ScrollTimerFires`.
- The scroll to the bottom of the main app whenever the messages change (src/App.tsx:287-291) is left out. It is the same clamped scroll `Scrolling.ScrollState.OnMutation` performs with auto-scroll set.
- src/hooks/useConfession.ts is not part of this model. It signals across components through a global variable polled by timers and custom DOM events. `selectConfession` appears only as the first recorded call of `ConfessionDropdown.SelectionCalls`.
- ChatInput.Input.SetValue models only the `setValue` handle of src/components/chat/ChatInput.tsx, the input that forwards its ref. The main app (src/App.tsx:6, :409) attaches its ref to src/components/ChatInput.tsx, a plain function component with no handle, so its `handleSelectConfession` does nothing (see "## Findings").
- The `maxLength={300}` attribute of the chat input is left out. It is a browser limit on typing that never reaches the handlers.
- The typing effect re-runs when a message's body or author changes. The model treats messages as immutable and does not model that re-run.
- ChatMessage.TypeOut: the milliseconds `TypingSpeed` (20) and `TypingInitialDelay` (50) are recorded as constants, but time itself is not modelled. The animation is a sequence of timer events.
- ChatInput.Input.Submit: the handlers read `value` from the render they were created in. The model reads the current value; the two differ only if the value changes while `onSubmit` is still pending.
- The unused variable `buttonCenterX` in the chat dropdown is left out.
- The chat dropdown's desktop width comes from the CSS class `xs:w-64`. ConfessionDropdown.ChatDropdown.Reposition uses 250, the width the placement code assumes, and not the rendered width.
- AbsolveModal renders nothing while closed, so its two buttons exist only while `showAbsolveModal` holds; that is the precondition of App.ChatRoom.HandleConfirmAbsolve and App.ChatRoom.HandleCancelAbsolve. Its layout is left out.
- The CONFESS button's `disabled={isBurning}` (src/App.tsx:417) is left out: the Enter key submits the same form while burning, so App.ChatRoom.HandleSendMessage has no guard.
- ModelView.SpinDetector.ResetCamera: one 'change' event is modelled, the one `controls.reset()` dispatches. `controls.update()` dispatches another only while the camera still moves (with damping), which is not modelled.
- TextUtils.TruncateText: strings are sequences of Unicode scalar values, while JavaScript's `length` and `slice` count UTF-16 code units. A text with characters outside the Basic Multilingual Plane is measured and cut differently, and the source can cut inside a surrogate pair, which no string here can hold.
- ChatMessage.TypedMessage.Tick: each tick shows one more Unicode scalar value, where the source's `substring` shows one more UTF-16 code unit; a character outside the Basic Multilingual Plane takes two ticks there, and the first shows half of it.
- ChatMessage.TypeOut: the `|body| + 1` ticks count Unicode scalar values; the source takes `body.length + 1` ticks, counted in UTF-16 code units.
- JsBuiltins.Slice: the indices count Unicode scalar values, not UTF-16 code units.
- The trivial stubs are left out: convex/http.ts, convex/auth.ts and the declaration-only schema, except for its message fields.
- The layout-only components, which hold no logic, are left out: InputSection, both ChatContainer files, UserList, UserAvatar, AppProvider, ViewportContext and UserContext.
- Numbers are modelled as mathematical reals and integers, not IEEE doubles. Rounding error in the per-channel interpolation and in the time arithmetic is not modelled; the 32-bit bitwise operators are modelled exactly.

## Findings

| source | as written | input that shows it | evidently intended | confidence | as-written member | corrected member |
|---|---|---|---|---|---|---|
| src/utils/textUtils.ts:53 | for a limit below 3, `slice(0, maxLength - 3)` gets a negative end and counts from the end of the text, so the result is longer than the limit | `truncateText("abcdefghij", 0)` gives "abcdefg...", ten characters for a limit of 0 | the result is never longer than `max(maxLength, 3)` | medium, not executed | TextUtils.TruncateTextZeroLimitWitness | TextUtils.TruncateTextClamped |
| src/App.tsx:320-324 | the ref is attached to src/components/ChatInput.tsx, which takes no ref and exposes no `setValue`, so `chatInputRef.current` stays null and the guard skips the call | picking any confession from the dropdown in the main app leaves the input empty | the picked confession fills the input, as the input in src/components/chat/ChatInput.tsx would do | medium, not executed | App.MainAppSelectionIgnored | App.ForwardedSelectionFills |

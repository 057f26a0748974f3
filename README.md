# A verified model of the portfolio page's interactive logic

`script.js` drives a one-page portfolio site. This project models the five parts of it that carry logic of their own, and proves what each one promises:

- **The particle field** (`ParticleSystem`).
  - `init` fills the canvas with 80 random particles.
  - Every frame, `drawParticles` pushes particles away from the pointer, integrates their velocity, bounces them off the edges and clamps them into the canvas.
  - `drawConnections` joins every pair of particles closer than 150 by a line whose opacity fades with distance.
- **The contact form's validators** (`FormHandler`).
  - `validateName` requires at least two code units after `trim`.
  - `validateEmail` tests the trimmed value against `^[^\s@]+@[^\s@]+\.[^\s@]+$`.
  - The submit button runs both validators and sends only when both pass.
- **The key-sequence easter egg.** A top-level `keydown` listener keeps the last ten key codes. It compares their comma-joined text with that of the pattern 38,38,40,40,37,39,37,39,66,65.
- **The typing effect** (`setupTypingEffect`). The subtitle is emptied, then a timer chain of `type()` calls shows one more code unit per call.

Files:

- `js_text.dfy` (module `JsText`) models JavaScript strings as sequences of UTF-16 code units, together with `String.prototype.trim`.
- `form_handler.dfy` (module `FormHandler`) holds the validators, a matcher for the email pattern, and the submit gate.
- `konami.dfy` (module `Konami`) holds the key buffer as a class with a `KeyDown` method, and `Array.prototype.join` over key codes.
- `typing_effect.dfy` (module `TypingEffect`) holds the typist's state as a class with a `Type` method.
- `connections.dfy` (module `Connections`) holds the order in which the nested loop visits pairs, the opacity, and the rule for which lines are drawn.
- `particle_system.dfy` (module `ParticleField`) holds the particle records and the per-frame update. It also holds the `ParticleSystem` class with `Init`, the three listeners, `DrawParticles`, `DrawConnections` and `Animate`.

How things are modelled:

- **Random values.** `Math.random` values are inputs constrained to `[0, 1)`.
- **Distances.** Each `Math.sqrt` distance is an input `d` with `d >= 0` and `d * d` equal to the sum of squares of the offsets. This pins `d` to the true distance.
- **Angles.** `Math.cos(Math.atan2(dy, dx))` and `Math.sin(Math.atan2(dy, dx))` are written exactly in terms of `d`: they are `dx / d` and `dy / d`. When `d` is 0 they are 1 and 0, as `atan2(0, 0)` is 0.
- **Numbers.** Coordinates and velocities are exact reals.
- **Particles.** Each particle is a record. Only the particle array refers to it, so the population is a sequence of values, and `drawParticles` replaces element `i` with its updated value.

Points where the code behaves in a way a reader might not expect. In each case the model follows the code:

- The pointer guard is `this.mouse.x && this.mouse.y`. A coordinate of exactly 0 is falsy, so a pointer on the left or top edge does not repel. `Engaged` models this, and `OnlyBouncesWithoutRepulsion` covers that case.
- Lengths and `charAt` count UTF-16 code units. One character outside the Basic Multilingual Plane is two code units long, so on its own it passes `validateName`.
- `\s` and `trim` use the same set of white-space code points: ECMAScript's WhiteSpace and LineTerminator.
- The constructor calls `animate()` right after `init()`. Its first frame is modelled by `Animate`, like every later frame. The model's constructor ends after `init`.

## Model

| member | source | states |
|---|---|---|
| JsText.Trim | script.js:325 | The result has no white space at either end, and it is an infix of the input with only white space before and after it. |
| JsText.TrimOf | script.js:325 | White space, then a core with no white space at either end, then white space: trimming gives back exactly the core. |
| JsText.TrimIdempotent | script.js:335 | Trimming twice is trimming once. |
| FormHandler.MatchEmail | script.js:336-337 | Defines the matcher for the email pattern. It finds the first `@`, needs a non-empty part before it, and needs a full stop strictly inside the part after it, with both parts free of white space and `@`. MatchEmailIffPattern states that this is the pattern's language. |
| FormHandler.MatchEmailIffPattern | script.js:336-337 | The matcher (split at the first `@`, full stop strictly inside the domain) accepts exactly the strings of the form L@A.B, with L, A and B non-empty and free of white space and `@`. |
| FormHandler.MatchEmailSound | script.js:336-337 | Every string the matcher accepts has the form L@A.B with three tokens. |
| FormHandler.MatchEmailComplete | script.js:336-337 | Every string of the form L@A.B with three tokens is accepted by the matcher. |
| FormHandler.MatchedAddressShape | script.js:336 | An accepted address holds exactly one `@`, and the part after it contains a full stop that is neither its first nor its last code unit. |
| FormHandler.ValidateName | script.js:324-326 | Defines `validateName`'s verdict: the trimmed value holds at least two code units. ValidateNameOfPadded and OneAstralCharacterIsLongEnough state its properties. |
| FormHandler.ValidateEmail | script.js:334-337 | Defines `validateEmail`'s verdict: the trimmed value matches the email pattern. ValidateEmailOfPadded and PaddedShortestAddress state its properties. |
| FormHandler.ValidateNameOfPadded | script.js:324-331 | For a trimmed core padded with white space, `validateName` passes iff the core has length at least 2. |
| FormHandler.ValidateEmailOfPadded | script.js:334-342 | For a trimmed core padded with white space, `validateEmail` passes iff the core has the form L@A.B. |
| FormHandler.OneAstralCharacterIsLongEnough | script.js:325-326 | One character outside the Basic Multilingual Plane is two code units long, so it passes the length check. |
| FormHandler.ShortestAddress | script.js:336-337 | Any three token code units around `@` and `.` make an accepted address. |
| FormHandler.PaddedShortestAddress | script.js:335-337 | An address like " a@b.c\n" is trimmed before it is matched, and is accepted. |
| FormHandler.SeveralFullStopsAreAccepted | script.js:336 | "a@b.c.d" is accepted, because the domain's tokens may themselves contain full stops. |
| FormHandler.TrailingFullStopIsRejected | script.js:336-341 | "a@b." is rejected. |
| FormHandler.SecondAtSignIsRejected | script.js:336-341 | "a@@b.c" is rejected. |
| FormHandler.NameFeedback | script.js:324-331 | The field is marked accepted iff `validateName` passes; otherwise it shows "Name must be at least 2 characters". |
| FormHandler.EmailFeedback | script.js:334-342 | The field is marked accepted iff `validateEmail` passes; otherwise it shows "Please enter a valid email". |
| FormHandler.SubmitClick | script.js:374-386 | Both fields always receive their feedback. The form is sent iff both validators pass. |
| FormHandler.SentFormIsWellFormed | script.js:378-385 | A sent form has a trimmed name of at least two code units, and a trimmed address of the form L@A.B with exactly one `@`. |
| Konami.SliceLast | script.js:739 | `slice(-n)` returns the last min(n, length) elements. |
| Konami.SliceLastPush | script.js:738-739 | Pushing onto the window and then slicing gives the same result as pushing onto the whole key history and then slicing. |
| Konami.Decimal | script.js:741 | A key code's decimal text is non-empty and made of digits; it is one digit long iff the code is below 10. |
| Konami.Join | script.js:741 | `join(',')` is empty iff the array is empty. |
| Konami.JoinInjective | script.js:741 | Equal joined texts come only from equal key sequences, so the string comparison is a comparison of the keys. |
| Konami.KonamiListener.constructor | script.js:734 | The buffer starts empty, and so does the key history it summarises. |
| Konami.KonamiListener.KeyDown | script.js:737-744 | The new buffer is the old buffer plus the key, cut to its last ten. The buffer holds the last min(10, n) keys and never more than ten. The easter egg fires iff the joined texts are equal, which is iff the last ten keys typed are the pattern. |
| Konami.Listen | script.js:737-739 | Defines the buffer after a whole key history, built key by key as the listener does: push, then keep the last ten. ListenKeepsLastKeys and ActivatesIffPatternTyped state its properties. |
| Konami.ListenKeepsLastKeys | script.js:737-739 | After any key history, the buffer is exactly the last min(10, n) keys. |
| Konami.ActivatesIffPatternTyped | script.js:741-742 | After any key history, activation happens iff at least ten keys were typed and the last ten are the pattern. |
| Konami.PatternTriggersAfterAnyPrefix | script.js:735-742 | Typing the pattern fills the buffer with the pattern, whatever was typed before. |
| TypingEffect.Typist.constructor | script.js:691-695 | The subtitle's text is captured, the subtitle is emptied, and the index starts at 0. |
| TypingEffect.Typist.Type | script.js:698-704 | One call appends `text[index]` and reschedules iff the index is below the length; otherwise nothing changes. The subtitle always shows the first `index` code units of the text, and shows all of it once the chain stops. |
| TypingEffect.TypeSteps | script.js:698-706 | After k calls the subtitle shows the first min(k, length) code units. The chain is still running iff k is at most the length. |
| Connections.Opacity | script.js:96-97 | For distances in [0, 150) the opacity lies in (0, 0.3]. It is 0.3 at distance 0 and falls to 0 at 150. |
| Connections.OpacityFallsOff | script.js:97 | Nearer pairs get strictly more opaque lines, with a slope of 0.002 per unit of distance. |
| Connections.AllPairs | script.js:90-91 | Defines the pairs the nested loop visits, row by row, in order. AllPairsVisitedOnce states what they are. |
| Connections.AllPairsVisitedOnce | script.js:90-91 | The loop visits exactly the pairs i < j < n, each once, in lexicographic order: n(n-1)/2 of them. |
| Connections.NoPairsBelowTwo | script.js:90-91 | With fewer than two particles, no pair is checked. |
| Connections.PairsBelowCount | script.js:90-91 | The first i rows hold i(2n-i-1)/2 pairs. |
| Connections.LineFor | script.js:92-104 | Defines the line for one visited pair: present iff its distance is below 150, with the opacity of that distance. DrawnFacts states the consequence for a whole run of pairs. |
| Connections.Drawn | script.js:90-104 | The lines drawn while a run of pairs is visited, in order, and never more lines than pairs. DrawnFacts and ConnectionRule state which lines they are. |
| Connections.RowLinesDrawn | script.js:91-104 | One row's lines are the lines of that row's pairs, taken in order. |
| Connections.DrawnAppend | script.js:90-106 | Visiting one run of pairs and then another draws the lines of the first run, then those of the second. |
| Connections.DrawnFacts | script.js:96-104 | A line is drawn for exactly the visited pairs closer than 150, with the opacity of their distance, in visiting order. |
| Connections.ConnectionRule | script.js:89-107 | Over all pairs of n particles: the line (i, j) is drawn iff i < j < n and the distance is below 150, with the matching opacity, and no pair gets two lines. |
| ParticleField.Spawn | script.js:21-28 | A new particle lies on the canvas, below the far edge along each non-empty axis. Each velocity component is in [-0.25, 0.25), the radius is in [1, 3) and the opacity is in [0.2, 0.7). |
| ParticleField.Force | script.js:58 | Within the radius the force lies in (0, 1]. |
| ParticleField.Engaged | script.js:52 | Defines the guard `this.mouse.x && this.mouse.y`: the pointer is set and both coordinates are non-zero, since 0 is falsy. OnlyBouncesWithoutRepulsion covers the case where it fails. |
| ParticleField.Repel | script.js:52-62 | Defines the velocity after the pointer interaction: unchanged outside the guard, otherwise pushed along the angle by force × 0.2. RepulsionPointsAway and RepulsionStrength state its properties. |
| ParticleField.RepelsIffSquaredClose | script.js:52-57 | The repulsion applies iff the pointer is engaged (both coordinates truthy) and the squared offset is below 150². |
| ParticleField.ShorterIffSquareSmaller | script.js:55-57 | For a true distance d and a positive bound r: d < r iff the sum of squares is below r². |
| ParticleField.ZeroLength | script.js:55-59 | Distance 0 means the particle sits exactly on the pointer. |
| ParticleField.UnitDirection | script.js:59-61 | The cosine and sine of the angle form a unit vector. When the distance is non-zero, projecting that vector on the offset gives back the distance. |
| ParticleField.RepulsionPointsAway | script.js:52-62 | The velocity change points away from the pointer: its dot product with the pointer-to-particle vector is never negative. |
| ParticleField.RepulsionStrength | script.js:58-61 | The velocity change has length force × 0.2, which lies in (0, 0.2]. |
| ParticleField.Clamp | script.js:74-75 | The result lies in [0, limit]. It is the input when that is already in range, 0 below it, and the limit above it. |
| ParticleField.Advance | script.js:52-75 | After one update the particle is on the canvas, wherever it was before, and its radius and opacity are unchanged. |
| ParticleField.BounceLaw | script.js:66-71 | Each velocity component is negated iff its moved coordinate is below 0 or beyond the edge, independently of the other. Otherwise the component and the moved coordinate are kept. A coordinate exactly on 0 or on the edge does not bounce. |
| ParticleField.OnlyBouncesWithoutRepulsion | script.js:52-71 | With the pointer unset, a zero pointer coordinate, or the particle out of reach, each velocity component keeps its magnitude and at most changes sign. |
| ParticleField.PastRightEdgeTurnsBack | script.js:66-74 | A particle one pixel past the right edge and moving right is turned round and put back on the edge. |
| ParticleField.StepAll | script.js:49-76 | One frame keeps the number of particles and leaves every particle on the canvas. |
| ParticleField.ConnectionsOfPositions | script.js:92-97 | In terms of positions, the line (i, j) is drawn iff i < j and the squared distance of the two particles is below 150², with the opacity of their distance. |
| ParticleField.TwoCloseParticles | script.js:92-97 | Two particles 149 apart give exactly one line, of opacity 0.002. |
| ParticleField.ConnectRow | script.js:91-105 | The inner loop for row i returns exactly that row's lines, in order. |
| ParticleField.ParticleSystem.constructor | script.js:3-11 | The canvas takes the viewport's size, the pointer starts unset, and there are 80 particles, each spawned from its random draws and on the canvas. |
| ParticleField.ParticleSystem.Init | script.js:16-30 | The canvas is sized to the viewport, and exactly 80 spawned particles are appended after the existing ones, which are kept. |
| ParticleField.ParticleSystem.Resize | script.js:33-36 | The canvas takes the new size, and the particles are untouched. |
| ParticleField.ParticleSystem.MouseMove | script.js:38-41 | The pointer is at the event's coordinates. |
| ParticleField.ParticleSystem.MouseOut | script.js:43-46 | The pointer is unset. |
| ParticleField.ParticleSystem.UpdateParticle | script.js:50-75 | The imperative callback body computes the particle's update and leaves the particle on the canvas. |
| ParticleField.ParticleSystem.DrawParticles | script.js:49-76 | The loop updates every particle in turn. The new population is the one-frame step of the old one, entirely on the canvas, even after a resize. |
| ParticleField.ParticleSystem.DrawConnections | script.js:89-107 | The nested loop produces the lines of all pairs i < j, in visiting order. |
| ParticleField.ParticleSystem.Animate | script.js:109-117 | A frame draws connections from the positions it starts with: a line for exactly the pairs i < j closer than 150. It then advances every particle onto the canvas. |

## Left out

- Canvas drawing is not modelled: `arc`, `fill`, `stroke`, `clearRect`, `shadowBlur` and the colours. The lines a frame would stroke are returned as values instead.
- `requestAnimationFrame` scheduling is not modelled. Each frame is one call of `Animate`.
- The listener wiring in `setupEventListeners` is not modelled either; each listener's effect on the state is modelled as a method.
- `Math.random` becomes an input, constrained to `[0, 1)` as its documentation promises.
- `Math.sqrt` becomes an input, pinned by its defining equation. The angle functions are then exact in terms of it.
- Floating point is not modelled: rounding, NaN and infinities are out. Coordinates, velocities and distances are exact reals.
- Mouse coordinates are taken as given reals. Where they come from on a `MouseEvent` is not modelled.
- Canvas and viewport sizes are non-negative integers, as the DOM gives them.
- `ParticleField.ParticleSystem.DrawParticles`: particles are modelled as values in a sequence, not as shared objects updated in place. Nothing else holds a reference to a particle, so the difference is invisible to the page.
- `ParticleField.ParticleSystem.constructor`: does not model the constructor's own calls of `animate()` and `setupEventListeners()`. That frame is `Animate`, and the listeners are separate methods.
- `showError` and `showSuccess` are modelled only as the feedback a field receives: accepted, or the error message. Their styling and the error element are not modelled.
- The real-time `input` listeners are not modelled. They call the same validators.
- `submitForm` and `shakeButton` are not modelled. Only the decision between them is.
- `activateMatrixMode` is not modelled; only whether it is called.
- The delays are left out: the 1000 ms before the first `type()` call and the 100 ms between calls. Only the order of calls is modelled.
- The rest of `script.js` is not part of this model: the tech-skills and project data, the modal, the notifications and the other interactive elements. It is DOM and CSS work with no logic of its own.

# Bootstrap TypeScript template: view-state model

This project models the view-state logic of the template's `App` class
(`src/index.ts`) in Dafny and proves what it promises. The page is treated as
plain data:

- a class list is a `set<string>`;
- an element the page may lack is an `Option`;
- the progress bar is a pair of integers (width and label, in percent);
- offsets and scroll positions are `int`s.

`App` keeps the state record `{isLoading, progressValue}`, which starts as
`{false, 75}`. Its invariant `Valid()` says three things:
- the demo action is Busy exactly while its completion is pending;
- the progress value lies in [0, 100];
- there is one href per nav link (`navLinks.Length == |navHrefs|`), which the
  scroll handler needs to look links up by href.

The modules:

- `Wrappers` — the `Option` type.
- `ViewLogic` — the pure parts, with lemmas about them:
  - the clamp `Math.min(100, Math.max(0, v))`;
  - `validateFormData`, with JavaScript truthiness and `String.prototype.includes`;
  - the toast's class list after `showToast`;
  - which nav link is active after a click or a scroll.
- `AppModel` — the handlers as methods of a class `App`. Each method changes
  only the fields its `modifies` clause names. Its postcondition ties the new
  state to the functions of `ViewLogic`.
  - The `setTimeout` that ends the demo action is replaced by an explicit
    method, `TimerFires`. The click stores the pending completion together
    with the button, its spinner and the label the click read.
  - Assigning a button's `textContent` replaces all of the button's children
    with one text node. So the busy label also detaches the spinner from the
    button, and the completion then adds `d-none` to a detached element. The
    model keeps this DOM behaviour.
- `Scenarios` — client code that uses only the handlers' contracts to run a
  double click on the demo button, and a good and a bad form submission.

The demo completion sets progress to 100 only when the page has a progress
bar; otherwise `updateProgressBar` returns first (`src/index.ts:219-222`).

## Model

| member | source | states |
|---|---|---|
| ViewLogic.Clamp | src/index.ts:222 | the stored value lies in [0,100]; a value already in range is kept; values below 0 become 0 and values above 100 become 100 |
| ViewLogic.ProgressAfter | src/index.ts:218-224 | the value and the bar after an update: the bar is present afterwards exactly when it was before; a present bar shows the stored value in both width and label, and that value lies in [0,100]; a value in range stays in range |
| ViewLogic.ProgressUpdate | src/index.ts:218-224 | with a bar present, the stored value is the clamped value and the bar's width and label both show it; it equals the input exactly when the input is in [0,100]; with no bar, the value and the bar stay unchanged; the update keeps the value in range |
| ViewLogic.Includes | src/index.ts:176 | `String.prototype.includes` as a search from the front: a hit needs the substring to fit; the empty substring is always found; a prefix match is found (IncludesIffOccurs characterises it completely) |
| ViewLogic.IncludesIffOccurs | src/index.ts:176 | the front-to-back substring search succeeds exactly when the substring occurs at some index |
| ViewLogic.IncludesChar | src/index.ts:176 | `includes('@')` holds exactly when '@' is a character of the email |
| ViewLogic.ValidateFormData | src/index.ts:174-177 | the source's expression with JavaScript truthiness and short-circuit: passing implies all three entries present, a name of at least 2 characters and a non-empty message (ValidationRule gives the full iff) |
| ViewLogic.ValidationRule | src/index.ts:174-177 | validation passes exactly when name, email and message are all present, the message is not empty, the email contains '@' and the name has at least 2 characters (iff) |
| ViewLogic.SuccessMessage | src/index.ts:168 | the success toast's text contains the submitted name, which comes first |
| ViewLogic.ToastClasses | src/index.ts:189-199 | the toast carries exactly one of the severity classes, the one its type selects (bg-success, bg-danger, or bg-primary for info); its other classes are exactly toast and text-white |
| ViewLogic.ShownToast | src/index.ts:179-199 | the toast element and message after showToast: with either element missing both stay as they were; otherwise the message is the given text and the class list has exactly the type's severity class plus toast and text-white |
| ViewLogic.ToastSupersedes | src/index.ts:179-199 | a second showToast leaves the toast as if the first had never run, so only the second severity marker remains; with an element missing both calls change nothing |
| ViewLogic.ToastStylesDistinct | src/index.ts:190-199 | two different severities never give the same class list |
| ViewLogic.WithoutActive | src/index.ts:82 | every link loses 'active' and keeps all its other classes |
| ViewLogic.Activate | src/index.ts:82-83 | after clearing and re-adding, a link is active exactly when it is link k; the number of links is kept |
| ViewLogic.ActivateSelectsOnly | src/index.ts:82-83 | after clearing and re-adding, exactly link k is active, and every link keeps all of its other classes |
| ViewLogic.ActivateSupersedes | src/index.ts:112-115 | a later activation fully overrides an earlier one |
| ViewLogic.LinkFor | src/index.ts:105 | the lookup returns the first link whose href is the target, or none when no link has it |
| ViewLogic.SectionHit | src/index.ts:104-111 | a section selects a link only if it exists and contains the point, and the link's href is '#' + id; it does select one whenever the section exists, contains the point and some link has that href |
| ViewLogic.LastHit | src/index.ts:103-118 | the link the scan selects is a valid link index |
| ViewLogic.LastHitIsLastMatch | src/index.ts:100-117 | the scan selects nothing exactly when no section hits; when section i hits and no later one does, the scan selects section i's link (last match wins) |
| ViewLogic.ScanResult | src/index.ts:103-118 | the links after scanning a list of section ids: when some section hit, exactly the last hit's link is active; every link keeps all its classes other than 'active' |
| ViewLogic.ScanStep | src/index.ts:107-116 | one step of the forEach: a hit replaces whatever earlier steps activated with its own link; a miss leaves the links alone |
| ViewLogic.AfterScroll | src/index.ts:99-119 | the links after the scroll handler: unchanged when no section hits, otherwise exactly the last hit's link is active |
| ViewLogic.ScrollActivatesLastMatch | src/index.ts:100-117 | on scroll, when section i is the last section containing scrollY + 100 (half-open [top, top+height)), exactly its link is active |
| ViewLogic.ScrollWithoutMatchKeepsLinks | src/index.ts:103-118 | when no section contains scrollY + 100, every link's class list is left unchanged |
| ViewLogic.ScrollExample | src/index.ts:100-117 | with home [0,500), about [500,1200), contact [1200,101200) and scrollY 500, exactly the about link is active |
| AppModel.ContactForm.Data | src/index.ts:153-158 | the {name, email, message} record that `new FormData(form)` and the three `get` calls build, an entry being absent when the form lacks that control |
| AppModel.ContactForm.Reset | src/index.ts:171 | every control the form has is reset to empty; missing controls stay missing |
| AppModel.App.constructor | src/index.ts:20-23 | the state starts Idle with progress 75 and no pending completion; the invariant holds |
| AppModel.App.GetState | src/index.ts:228-230 | returns a copy of {isLoading, progressValue}, with progress in [0,100] and isLoading exactly when a completion is pending |
| AppModel.App.ShowToast | src/index.ts:179-199 | with both toast elements present, the message is set and the class list becomes exactly ToastClasses(type), whatever it held before; otherwise nothing changes |
| AppModel.App.OnPrimaryClick | src/index.ts:39-43 | shows the primary success toast |
| AppModel.App.OnSecondaryClick | src/index.ts:47-51 | shows the secondary info toast |
| AppModel.App.UpdateProgressBar | src/index.ts:218-225 | the new value and bar are ProgressAfter of the old ones; the range invariant is kept |
| AppModel.App.UpdateProgress | src/index.ts:232-234 | the same effect as updateProgressBar |
| AppModel.App.OnDemoClick | src/index.ts:122-136 | while Busy, nothing changes. From Idle the state becomes Busy, the spinner loses d-none, the button is disabled and labelled '処理中...', the spinner is detached, and the completion is scheduled with the label read before the click |
| AppModel.App.TimerFires | src/index.ts:138-149 | the completion returns to Idle, adds d-none to the captured spinner, re-enables the button and restores its captured label, shows the success toast and updates progress with 100; when nothing is pending, nothing changes |
| AppModel.App.OnFormSubmit | src/index.ts:152-172 | invalid data shows the error toast, logs nothing and leaves the form untouched; valid data is returned as the logged payload, shows a success toast thanking the name, and resets the form |
| AppModel.App.ClearActive | src/index.ts:82 | every nav link loses 'active' and keeps its other classes |
| AppModel.App.OnNavLinkClick | src/index.ts:78-83 | the links become Activate(old links, k), so by ActivateSelectsOnly exactly the clicked link is active |
| AppModel.App.OnScroll | src/index.ts:99-119 | the links become AfterScroll of the old links, the hrefs, the layout and scrollY; the other lemmas about AfterScroll then apply |
| Scenarios.ValidationExamples | src/index.ts:174-177 | {Al, a@b.com, hi} passes validation; {A, bad, empty} fails it |
| Scenarios.SubmitExamples | src/index.ts:152-172 | on a page with a toast, {Al, a@b.com, hi} is logged, thanked by name with a success toast and the form is cleared; {A, bad, empty} logs nothing, shows the error toast and keeps the input |
| Scenarios.DemoDoubleClick | src/index.ts:122-149 | two clicks and then the timer: the second click is absorbed; afterwards the state is Idle, progress is 100, the button is enabled and has its original label |

## Left out

- The Bootstrap and SCSS imports and the `bootstrap.Toast(...).show()` call (`src/index.ts:2`, `5`, `202-203`) are foreign library code. The model keeps only the toast's text and class list. `Toast.show()` then adds Bootstrap's own classes (such as `show` or `showing`) to the same element, so the exact set {toast, bg-X, text-white} the model states is the class list just before line 202.
- `scrollIntoView` after a nav click (`src/index.ts:86-91`) is browser scrolling. The click handler's effect on the nav links is fully modelled.
- Real timing: the 2000 ms delay becomes the explicit `TimerFires` method. `TimerFires` does nothing when no completion is pending, because the browser never fires a timer that was not scheduled.
- `animateProgressBar` (`src/index.ts:206-216`) is a cosmetic entrance animation. The constructor takes the bar as the page gives it.
- `addEventListener` wiring, `DOMContentLoaded`, skipping bindings for missing elements, and the `window.app` global (`src/index.ts:36-72`, `238-243`) are plumbing.
- `console.log` output (`src/index.ts:33`, `167`) is I/O. `OnFormSubmit` returns the submitted payload instead.
- JavaScript `number` is floating point and CSS widths are strings such as `'75%'`. Values, offsets and widths here are integers.
- ViewLogic.LinkFor: `querySelector('a[href="#id"]')` searches the whole document. The model searches only the nav links, because anchors outside the navigation bar are not part of the abstract page. In the source, if the first `a[href="#id"]` in document order is another anchor (a brand or hero link, say), lines 112-115 clear every nav link and mark that other anchor, so no nav link is left active; the model would mark the nav link instead.
- AppModel.ContactForm.Reset: `form.reset()` restores each control's default value. The model takes every default to be empty, because the markup is not part of this model.
- ViewLogic.ValidateFormData: JavaScript's `name.length` counts UTF-16 code units. Dafny's `|s|` counts Unicode scalar values, so names with characters outside the Basic Multilingual Plane are measured differently.
- `formData.get` can return a `File` for file inputs. Entries are modelled only as optional strings.
- `showToast`'s default argument `'info'` has no Dafny counterpart. Every call in the source passes a type, so every call in the model passes one too.

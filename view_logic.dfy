/**
 * The pure view-state logic of the template's App: the progress clamp, the
 * contact-form validation rule, the toast's style classes, and the choice of
 * the active navigation link on a click or a scroll. The page is abstracted
 * as plain data: an element's class list is a set of strings, an element that
 * may be absent is an Option, and offsets are integers.
 */
module ViewLogic {
  import opened Wrappers

  // ---------------------------------------------------------------- progress

  /** The progress bar as the page shows it: its width and its label, both in percent. */
  datatype Bar = Bar(width: int, text: int)

  /** Math.min(100, Math.max(0, value)): saturate a progress value into [0, 100]. */
  function Clamp(value: int): (r: int)
    ensures 0 <= r <= 100
    ensures 0 <= value <= 100 ==> r == value
    ensures value < 0 ==> r == 0
    ensures value > 100 ==> r == 100
  {
    var low := if value < 0 then 0 else value;
    if low > 100 then 100 else low
  }

  /**
   * The progress value and the bar after updateProgressBar(value): with no bar
   * on the page the update stops before it stores anything.
   */
  function ProgressAfter(bar: Option<Bar>, progress: int, value: int): (r: (int, Option<Bar>))
    ensures r.1.Some? <==> bar.Some?
    ensures r.1.Some? ==> r.1.value == Bar(r.0, r.0) && 0 <= r.0 <= 100
    ensures 0 <= progress <= 100 ==> 0 <= r.0 <= 100
  {
    if bar.None? then (progress, bar)
    else (Clamp(value), Some(Bar(Clamp(value), Clamp(value))))
  }

  /** What an update promises: a stored value in range that the bar shows, or no change at all. */
  lemma ProgressUpdate(bar: Option<Bar>, progress: int, value: int)
    ensures var (p, b) := ProgressAfter(bar, progress, value);
      && (bar.Some? ==> p == Clamp(value) && b == Some(Bar(p, p)))
      && (bar.Some? ==> (p == value <==> 0 <= value <= 100))
      && (bar.None? ==> p == progress && b == bar)
      && (0 <= progress <= 100 ==> 0 <= p <= 100)
  {
  }

  // ----------------------------------------------------------- contact form

  /**
   * The three entries formData.get returns for a submission; an entry is None
   * when the form has no control of that name.
   */
  datatype ContactFormData = ContactFormData(name: Option<string>, email: Option<string>, message: Option<string>)

  /** JavaScript truthiness of a form entry: null and the empty string are falsy. */
  predicate Truthy(v: Option<string>)
  {
    v.Some? && v.value != ""
  }

  /** String.prototype.includes: whether `sub` occurs in `s`, tried from the front. */
  function Includes(s: string, sub: string): (r: bool)
    ensures r ==> |sub| <= |s|
    ensures sub == [] ==> r
    ensures |sub| <= |s| && s[..|sub|] == sub ==> r
    decreases |s|
  {
    if |sub| > |s| then false
    else if s[..|sub|] == sub then true
    else Includes(s[1..], sub)
  }

  /** `sub` occurs in `s` starting at index `i`. */
  predicate OccursAt(s: string, sub: string, i: int)
  {
    0 <= i && i + |sub| <= |s| && s[i..i + |sub|] == sub
  }

  /** The search finds `sub` exactly when it occurs at some index. */
  lemma {:induction false} IncludesIffOccurs(s: string, sub: string)
    ensures Includes(s, sub) <==> exists i :: OccursAt(s, sub, i)
    decreases |s|
  {
    if |sub| > |s| {
      assert forall i :: !OccursAt(s, sub, i);
    } else if s[..|sub|] == sub {
      assert OccursAt(s, sub, 0);
    } else {
      IncludesIffOccurs(s[1..], sub);
      if Includes(s[1..], sub) {
        var i :| OccursAt(s[1..], sub, i);
        assert s[1..][i..i + |sub|] == s[i + 1..i + 1 + |sub|];
        assert OccursAt(s, sub, i + 1);
      } else {
        forall i | OccursAt(s, sub, i)
          ensures false
        {
          assert i != 0;
          var j := i - 1;
          assert s[1..][j..j + |sub|] == s[j + 1..j + 1 + |sub|];
          assert OccursAt(s[1..], sub, j);
        }
      }
    }
  }

  /** Searching for a one-character string is membership of that character. */
  lemma IncludesChar(s: string, c: char)
    ensures Includes(s, [c]) <==> c in s
  {
    IncludesIffOccurs(s, [c]);
    if c in s {
      var i :| 0 <= i < |s| && s[i] == c;
      assert s[i..i + 1] == [c];
      assert OccursAt(s, [c], i);
    }
    if Includes(s, [c]) {
      var i :| OccursAt(s, [c], i);
      assert s[i] == s[i..i + 1][0];
    }
  }

  /** validateFormData, with the short-circuit and truthiness of the source's expression. */
  predicate ValidateFormData(d: ContactFormData)
    ensures ValidateFormData(d) ==> d.name.Some? && d.email.Some? && d.message.Some?
    ensures ValidateFormData(d) ==> |d.name.value| >= 2 && d.message.value != ""
  {
    Truthy(d.name) && Truthy(d.email) && Truthy(d.message)
    && Includes(d.email.value, "@") && |d.name.value| >= 2
  }

  /**
   * The validation rule in plain terms: all three entries present, the message
   * non-empty, an '@' in the email and a name of at least two characters (the
   * non-emptiness of name and email follows from the last two).
   */
  lemma ValidationRule(d: ContactFormData)
    ensures ValidateFormData(d) <==>
      && d.name.Some? && d.email.Some? && d.message.Some?
      && |d.name.value| >= 2 && '@' in d.email.value && d.message.value != ""
  {
    if d.email.Some? {
      IncludesChar(d.email.value, '@');
    }
  }

  /** The text after the name in the success toast. */
  const ThanksSuffix: string := "さん、お問い合わせありがとうございます！"

  /** The success toast of a submission, addressed to the submitted name. */
  function SuccessMessage(name: string): (r: string)
    ensures Includes(r, name)
    ensures |name| <= |r| && r[..|name|] == name
  {
    var r := name + ThanksSuffix;
    assert r[..|name|] == name;
    r
  }

  // ------------------------------------------------------------------ toast

  /** The severity argument of showToast; the switch's default branch is Info, the parameter's default. */
  datatype ToastType = Success | Error | Info

  /** The Bootstrap background class each severity selects. */
  function BgClass(t: ToastType): string
  {
    match t
    case Success => "bg-success"
    case Error => "bg-danger"
    case Info => "bg-primary"
  }

  /** Every background class showToast can apply. */
  const SeverityClasses: set<string> := {"bg-success", "bg-danger", "bg-primary"}

  /**
   * The toast's class list after showToast: className is overwritten with
   * 'toast' before the severity classes are added, so nothing earlier survives.
   */
  function ToastClasses(t: ToastType): (r: set<string>)
    ensures r * SeverityClasses == {BgClass(t)}
    ensures r - SeverityClasses == {"toast", "text-white"}
  {
    {"toast"} + {BgClass(t), "text-white"}
  }

  /**
   * The toast element's classes and the message element's text after
   * showToast(message, t); if either element is missing nothing changes.
   */
  function ShownToast(element: Option<set<string>>, text: Option<string>, message: string, t: ToastType)
    : (r: (Option<set<string>>, Option<string>))
    ensures element.None? || text.None? ==> r == (element, text)
    ensures element.Some? && text.Some? ==>
      && r.1 == Some(message) && r.0.Some?
      && r.0.value * SeverityClasses == {BgClass(t)} && r.0.value - SeverityClasses == {"toast", "text-white"}
  {
    if element.None? || text.None? then (element, text)
    else (Some(ToastClasses(t)), Some(message))
  }

  /**
   * A second notification fully supersedes the first, whatever severities the
   * two carry: only the second's severity marker remains.
   */
  lemma ToastSupersedes(element: Option<set<string>>, text: Option<string>,
                        m1: string, t1: ToastType, m2: string, t2: ToastType)
    ensures var (e1, x1) := ShownToast(element, text, m1, t1);
      && ShownToast(e1, x1, m2, t2) == ShownToast(element, text, m2, t2)
      && (element.Some? && text.Some? ==>
            ShownToast(e1, x1, m2, t2).0.value * SeverityClasses == {BgClass(t2)})
  {
  }

  /** Different severities never produce the same styling. */
  lemma ToastStylesDistinct(t1: ToastType, t2: ToastType)
    requires t1 != t2
    ensures ToastClasses(t1) != ToastClasses(t2)
  {
  }

  // ------------------------------------------------------------- navigation

  /** The class that marks the current nav link. */
  const Active: string := "active"

  /** Every link's class list with 'active' removed (the forEach of remove calls). */
  function WithoutActive(links: seq<set<string>>): (r: seq<set<string>>)
    ensures |r| == |links|
    ensures forall j :: 0 <= j < |r| ==> Active !in r[j] && r[j] + {Active} == links[j] + {Active}
  {
    seq(|links|, j requires 0 <= j < |links| => links[j] - {Active})
  }

  /** Clear 'active' from every link, then add it to link k. */
  function Activate(links: seq<set<string>>, k: nat): (r: seq<set<string>>)
    requires k < |links|
    ensures |r| == |links|
    ensures forall j :: 0 <= j < |r| ==> (Active in r[j] <==> j == k)
  {
    var cleared := WithoutActive(links);
    cleared[k := cleared[k] + {Active}]
  }

  /** The indices of the links marked active. */
  function ActiveLinks(links: seq<set<string>>): set<nat>
  {
    set j: nat | j < |links| && Active in links[j]
  }

  /** After Activate, exactly link k is active and every other class of every link is kept. */
  lemma ActivateSelectsOnly(links: seq<set<string>>, k: nat)
    requires k < |links|
    ensures ActiveLinks(Activate(links, k)) == {k}
    ensures |Activate(links, k)| == |links|
    ensures forall j :: 0 <= j < |links| ==> Activate(links, k)[j] - {Active} == links[j] - {Active}
  {
  }

  /** A later activation supersedes an earlier one. */
  lemma ActivateSupersedes(links: seq<set<string>>, k1: nat, k2: nat)
    requires k1 < |links| && k2 < |links|
    ensures Activate(Activate(links, k1), k2) == Activate(links, k2)
  {
  }

  // ----------------------------------------------------------------- scroll

  /** A section's offsetTop and offsetHeight. */
  datatype Section = Section(top: int, height: int)

  /** The sections the scroll handler scans, in its order. */
  const SectionIds: seq<string> := ["home", "about", "contact"]

  /** The reference point is this far below window.scrollY. */
  const ScrollOffset: int := 100

  /** The half-open membership test sectionTop <= pos < sectionTop + sectionHeight. */
  predicate Contains(s: Section, pos: int)
  {
    s.top <= pos < s.top + s.height
  }

  /** The first link whose href is `target`, as a selector lookup finds it. */
  function LinkFor(hrefs: seq<string>, target: string): (r: Option<nat>)
    ensures r.Some? ==> r.value < |hrefs| && hrefs[r.value] == target
    ensures r.Some? ==> forall j :: 0 <= j < r.value ==> hrefs[j] != target
    ensures r.None? ==> forall j :: 0 <= j < |hrefs| ==> hrefs[j] != target
  {
    if hrefs == [] then None
    else if hrefs[0] == target then Some(0)
    else match LinkFor(hrefs[1..], target)
      case None => None
      case Some(k) => Some(k + 1)
  }

  /**
   * The link section `id` makes active at reference point `pos`: the section
   * element and its link must both exist and the point must lie within it.
   */
  function SectionHit(layout: map<string, Section>, hrefs: seq<string>, id: string, pos: int): (r: Option<nat>)
    ensures r.Some? ==> id in layout && Contains(layout[id], pos)
    ensures r.Some? ==> r.value < |hrefs| && hrefs[r.value] == "#" + id
    ensures id in layout && Contains(layout[id], pos) && "#" + id in hrefs ==> r.Some?
  {
    if id in layout && Contains(layout[id], pos) then LinkFor(hrefs, "#" + id) else None
  }

  /** The link the scan over `ids` leaves active; each hit overrides those before it. */
  function LastHit(layout: map<string, Section>, hrefs: seq<string>, ids: seq<string>, pos: int): (r: Option<nat>)
    ensures r.Some? ==> r.value < |hrefs|
    decreases |ids|
  {
    if ids == [] then None
    else match SectionHit(layout, hrefs, ids[|ids| - 1], pos)
      case Some(k) => Some(k)
      case None => LastHit(layout, hrefs, ids[..|ids| - 1], pos)
  }

  /** Index i of `ids` is a hit and no later index is. */
  predicate IsLastHit(layout: map<string, Section>, hrefs: seq<string>, ids: seq<string>, pos: int, i: int)
  {
    && 0 <= i < |ids|
    && SectionHit(layout, hrefs, ids[i], pos).Some?
    && forall j :: i < j < |ids| ==> SectionHit(layout, hrefs, ids[j], pos).None?
  }

  /** The scan keeps the link of the last hit, and yields none exactly when nothing hits. */
  lemma {:induction false} LastHitIsLastMatch(layout: map<string, Section>, hrefs: seq<string>, ids: seq<string>, pos: int)
    ensures LastHit(layout, hrefs, ids, pos).None? <==>
      forall i :: 0 <= i < |ids| ==> SectionHit(layout, hrefs, ids[i], pos).None?
    ensures forall i :: IsLastHit(layout, hrefs, ids, pos, i) ==>
      LastHit(layout, hrefs, ids, pos) == SectionHit(layout, hrefs, ids[i], pos)
    decreases |ids|
  {
    if ids != [] {
      var n := |ids| - 1;
      var front := ids[..n];
      LastHitIsLastMatch(layout, hrefs, front, pos);
      assert forall i :: 0 <= i < n ==> front[i] == ids[i];
      var hit := SectionHit(layout, hrefs, ids[n], pos);
      if hit.Some? {
        assert LastHit(layout, hrefs, ids, pos) == hit;
        forall i | IsLastHit(layout, hrefs, ids, pos, i)
          ensures i == n
        {
        }
      } else {
        assert LastHit(layout, hrefs, ids, pos) == LastHit(layout, hrefs, front, pos);
        forall i | IsLastHit(layout, hrefs, ids, pos, i)
          ensures IsLastHit(layout, hrefs, front, pos, i)
        {
        }
      }
    }
  }

  /** The nav links' class lists after the scan over `ids` at reference point `pos`. */
  function ScanResult(links: seq<set<string>>, hrefs: seq<string>, layout: map<string, Section>,
                      ids: seq<string>, pos: int): (r: seq<set<string>>)
    requires |links| == |hrefs|
    ensures |r| == |links|
    ensures LastHit(layout, hrefs, ids, pos).Some? ==> ActiveLinks(r) == {LastHit(layout, hrefs, ids, pos).value}
    ensures forall j :: 0 <= j < |r| ==> r[j] - {Active} == links[j] - {Active}
  {
    match LastHit(layout, hrefs, ids, pos)
    case None => links
    case Some(k) => Activate(links, k)
  }

  /**
   * One step of the scan: a section that hits replaces whatever the earlier
   * steps activated by its own link; one that misses leaves the links alone.
   */
  lemma ScanStep(links: seq<set<string>>, hrefs: seq<string>, layout: map<string, Section>,
                 ids: seq<string>, i: nat, pos: int)
    requires |links| == |hrefs| && i < |ids|
    ensures var before := ScanResult(links, hrefs, layout, ids[..i], pos);
      ScanResult(links, hrefs, layout, ids[..i + 1], pos) ==
        match SectionHit(layout, hrefs, ids[i], pos)
        case None => before
        case Some(k) => Activate(before, k)
  {
    assert ids[..i + 1][..i] == ids[..i];
    match (LastHit(layout, hrefs, ids[..i], pos), SectionHit(layout, hrefs, ids[i], pos)) {
      case (Some(k0), Some(k)) => ActivateSupersedes(links, k0, k);
      case (_, _) =>
    }
  }

  /** The nav links' class lists after the scroll handler ran with window.scrollY = scrollY. */
  function AfterScroll(links: seq<set<string>>, hrefs: seq<string>, layout: map<string, Section>, scrollY: int)
    : (r: seq<set<string>>)
    requires |links| == |hrefs|
    ensures |r| == |links|
    ensures LastHit(layout, hrefs, SectionIds, scrollY + ScrollOffset).None? ==> r == links
    ensures LastHit(layout, hrefs, SectionIds, scrollY + ScrollOffset).Some? ==>
      ActiveLinks(r) == {LastHit(layout, hrefs, SectionIds, scrollY + ScrollOffset).value}
  {
    ScanResult(links, hrefs, layout, SectionIds, scrollY + ScrollOffset)
  }

  /** On scroll, exactly the link of the last section that contains the reference point is active. */
  lemma ScrollActivatesLastMatch(links: seq<set<string>>, hrefs: seq<string>,
                                 layout: map<string, Section>, scrollY: int, i: int)
    requires |links| == |hrefs|
    requires IsLastHit(layout, hrefs, SectionIds, scrollY + ScrollOffset, i)
    ensures SectionHit(layout, hrefs, SectionIds[i], scrollY + ScrollOffset).Some?
    ensures ActiveLinks(AfterScroll(links, hrefs, layout, scrollY)) ==
      {SectionHit(layout, hrefs, SectionIds[i], scrollY + ScrollOffset).value}
  {
    LastHitIsLastMatch(layout, hrefs, SectionIds, scrollY + ScrollOffset);
    var k := SectionHit(layout, hrefs, SectionIds[i], scrollY + ScrollOffset).value;
    ActivateSelectsOnly(links, k);
  }

  /** When no section contains the reference point the links are left exactly as they were. */
  lemma ScrollWithoutMatchKeepsLinks(links: seq<set<string>>, hrefs: seq<string>,
                                     layout: map<string, Section>, scrollY: int)
    requires |links| == |hrefs|
    requires forall i :: 0 <= i < |SectionIds| ==>
      SectionHit(layout, hrefs, SectionIds[i], scrollY + ScrollOffset).None?
    ensures AfterScroll(links, hrefs, layout, scrollY) == links
  {
    LastHitIsLastMatch(layout, hrefs, SectionIds, scrollY + ScrollOffset);
  }

  /**
   * With home at [0,500), about at [500,1200) and contact from 1200 on, a
   * reference point of 600 activates exactly the 'about' link.
   */
  lemma ScrollExample(links: seq<set<string>>)
    requires |links| == 3
    ensures var layout := map["home" := Section(0, 500), "about" := Section(500, 700),
                              "contact" := Section(1200, 100000)];
      ActiveLinks(AfterScroll(links, ["#home", "#about", "#contact"], layout, 500)) == {1}
  {
    var hrefs := ["#home", "#about", "#contact"];
    var layout := map["home" := Section(0, 500), "about" := Section(500, 700),
                      "contact" := Section(1200, 100000)];
    assert LinkFor(hrefs, "#" + "about") == Some(1);
    assert IsLastHit(layout, hrefs, SectionIds, 600, 1);
    ScrollActivatesLastMatch(links, hrefs, layout, 500, 1);
  }
}

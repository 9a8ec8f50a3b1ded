/**
 * The App class of the template with its page abstracted as data: the view
 * state {isLoading, progressValue}, the progress bar, the toast, the nav links
 * and the pending completion of the demo action. Every handler is a method
 * that updates those fields in place, as the source's handlers update the
 * state record and the DOM.
 */
module AppModel {
  import opened Wrappers
  import opened ViewLogic

  /** The snapshot getState returns. */
  datatype AppState = AppState(isLoading: bool, progressValue: int)

  /** The progress value the state starts with. */
  const InitialProgress: int := 75

  /** The demo button's label while the action runs. */
  const BusyLabel: string := "処理中..."

  /** The toast shown when the demo action completes. */
  const DemoDoneMessage: string := "デモアクションが完了しました！"

  /** The toast shown when a submission fails validation. */
  const FormErrorMessage: string := "入力内容に不備があります"

  /** The toasts of the primary and the secondary button. */
  const PrimaryMessage: string := "プライマリアクションが実行されました！"
  const SecondaryMessage: string := "詳細情報を表示中..."

  /** The class that hides the spinner. */
  const Hidden: string := "d-none"

  /** The '.spinner-border' element a button may contain. */
  class Spinner {
    var classes: set<string>

    constructor (classes: set<string>)
      ensures this.classes == classes
    {
      this.classes := classes;
    }
  }

  /**
   * A button: its disabled flag, its textContent and the spinner it contains,
   * if any. Assigning textContent replaces all of a node's children by one text
   * node, so it also detaches the spinner.
   */
  class Button {
    var disabled: bool
    var text: string
    var spinner: Spinner?

    constructor (text: string, spinner: Spinner?)
      ensures !disabled && this.text == text && this.spinner == spinner
    {
      disabled := false;
      this.text := text;
      this.spinner := spinner;
    }
  }

  /** The value a form control takes on form.reset(): its default, which is empty. */
  function ResetValue(v: Option<string>): Option<string>
  {
    if v.Some? then Some("") else None
  }

  /** The contact form's three controls; a control the form lacks is None. */
  class ContactForm {
    var name: Option<string>
    var email: Option<string>
    var message: Option<string>

    constructor (name: Option<string>, email: Option<string>, message: Option<string>)
      ensures this.name == name && this.email == email && this.message == message
    {
      this.name, this.email, this.message := name, email, message;
    }

    /** What new FormData(form) yields for the three fields. */
    function Data(): ContactFormData
      reads this
    {
      ContactFormData(name, email, message)
    }

    /** form.reset(): every control the form has goes back to its empty default. */
    method Reset()
      modifies this
      ensures name == ResetValue(old(name)) && email == ResetValue(old(email))
      ensures message == ResetValue(old(message))
    {
      name, email, message := ResetValue(name), ResetValue(email), ResetValue(message);
    }
  }

  /**
   * The completion a demo click schedules: the button, the spinner it
   * contained and its textContent, all captured when the click ran.
   */
  datatype DemoTimer = DemoTimer(button: Button, spinner: Spinner?, originalText: string)

  class App {
    var isLoading: bool
    var progressValue: int
    /** The scheduled completion of the demo action, if one is pending. */
    var pending: Option<DemoTimer>
    /** The '.progress-bar' element, if the page has one. */
    var progressBar: Option<Bar>
    /** The class list of 'notification-toast', if the page has it. */
    var toastElement: Option<set<string>>
    /** The textContent of 'toast-message', if the page has it. */
    var toastMessage: Option<string>
    /** The class lists of the '.navbar-nav .nav-link' elements, in document order. */
    const navLinks: array<set<string>>
    /** Their href attributes. */
    const navHrefs: seq<string>

    /** The demo is Busy exactly while its completion is pending, progress stays in [0, 100], and every nav link has an href. */
    ghost predicate Valid()
      reads this
    {
      && (isLoading <==> pending.Some?)
      && 0 <= progressValue <= 100
      && navLinks.Length == |navHrefs|
    }

    /** The objects the pending completion will update. */
    function PendingFrame(): set<object>
      reads this
    {
      if pending.None? then {}
      else {pending.value.button} + (if pending.value.spinner == null then {} else {pending.value.spinner})
    }

    /** A page with the given nav links, progress bar and toast; the state starts as {false, 75}. */
    constructor (hrefs: seq<string>, links: seq<set<string>>, bar: Option<Bar>,
                 toast: Option<set<string>>, toastText: Option<string>)
      requires |links| == |hrefs|
      ensures Valid() && fresh(navLinks)
      ensures !isLoading && progressValue == InitialProgress && pending.None?
      ensures navLinks[..] == links && navHrefs == hrefs
      ensures progressBar == bar && toastElement == toast && toastMessage == toastText
    {
      isLoading, progressValue, pending := false, InitialProgress, None;
      progressBar, toastElement, toastMessage := bar, toast, toastText;
      navHrefs := hrefs;
      navLinks := new set<string>[|links|](j requires 0 <= j < |links| => links[j]);
    }

    /** getState: a copy of the state record, whose progress lies in [0, 100]. */
    method GetState() returns (s: AppState)
      requires Valid()
      ensures s == AppState(isLoading, progressValue)
      ensures 0 <= s.progressValue <= 100
      ensures s.isLoading <==> pending.Some?
    {
      s := AppState(isLoading, progressValue);
    }

    /** showToast: set the message, overwrite the toast's classes; nothing happens without both elements. */
    method ShowToast(message: string, t: ToastType)
      modifies this`toastElement, this`toastMessage
      ensures (toastElement, toastMessage) == ShownToast(old(toastElement), old(toastMessage), message, t)
    {
      if toastElement.None? || toastMessage.None? {
        return;
      }
      toastMessage := Some(message);
      var classes := {"toast"};
      match t {
        case Success =>
          classes := classes + {"bg-success", "text-white"};
        case Error =>
          classes := classes + {"bg-danger", "text-white"};
        case _ =>
          classes := classes + {"bg-primary", "text-white"};
      }
      toastElement := Some(classes);
    }

    /** The primary button's click handler: a success toast. */
    method OnPrimaryClick()
      modifies this`toastElement, this`toastMessage
      ensures (toastElement, toastMessage) == ShownToast(old(toastElement), old(toastMessage), PrimaryMessage, Success)
    {
      ShowToast(PrimaryMessage, Success);
    }

    /** The secondary button's click handler: an info toast. */
    method OnSecondaryClick()
      modifies this`toastElement, this`toastMessage
      ensures (toastElement, toastMessage) == ShownToast(old(toastElement), old(toastMessage), SecondaryMessage, Info)
    {
      ShowToast(SecondaryMessage, Info);
    }

    /** updateProgressBar: without a bar nothing changes; otherwise store and show the clamped value. */
    method UpdateProgressBar(value: int)
      requires Valid()
      modifies this`progressValue, this`progressBar
      ensures Valid()
      ensures (progressValue, progressBar) == ProgressAfter(old(progressBar), old(progressValue), value)
    {
      if progressBar.None? {
        return;
      }
      progressValue := Clamp(value);
      progressBar := Some(Bar(progressValue, progressValue));
    }

    /** updateProgress: the public entry, which delegates to updateProgressBar. */
    method UpdateProgress(value: int)
      requires Valid()
      modifies this`progressValue, this`progressBar
      ensures Valid()
      ensures (progressValue, progressBar) == ProgressAfter(old(progressBar), old(progressValue), value)
    {
      UpdateProgressBar(value);
    }

    /**
     * handleDemoButtonClick: a click while Busy does nothing. From Idle it goes
     * Busy, shows the spinner, disables the button, shows the busy label and
     * schedules the completion with the label read before the click.
     */
    method OnDemoClick(button: Button)
      requires Valid()
      modifies this`isLoading, this`pending, button, button.spinner
      ensures Valid()
      ensures var sp := old(button.spinner);
        if old(isLoading) then
          && pending == old(pending) && unchanged(button)
          && (sp != null ==> unchanged(sp))
        else
          && isLoading && pending == Some(DemoTimer(button, sp, old(button.text)))
          && button.disabled && button.text == BusyLabel && button.spinner == null
          && (sp != null ==> sp.classes == old(sp.classes) - {Hidden})
    {
      var spinner := button.spinner;
      var originalText := button.text;
      if isLoading {
        return;
      }
      isLoading := true;
      if spinner != null {
        spinner.classes := spinner.classes - {Hidden};
      }
      button.disabled := true;
      button.text, button.spinner := BusyLabel, null;
      pending := Some(DemoTimer(button, spinner, originalText));
    }

    /**
     * The scheduled completion fires: back to Idle, the spinner hidden, the
     * button enabled with its captured label, a success toast, and progress
     * updated to 100. With nothing scheduled there is nothing to fire.
     */
    method TimerFires()
      requires Valid()
      modifies this`isLoading, this`pending, this`toastElement, this`toastMessage,
               this`progressValue, this`progressBar, PendingFrame()
      ensures Valid()
      ensures old(pending).None? ==> unchanged(this)
      ensures old(pending).Some? ==>
        var t := old(pending.value);
        && !isLoading && pending.None?
        && !t.button.disabled && t.button.text == t.originalText && t.button.spinner == null
        && (t.spinner != null ==> t.spinner.classes == old(t.spinner.classes) + {Hidden})
        && (toastElement, toastMessage) ==
             ShownToast(old(toastElement), old(toastMessage), DemoDoneMessage, Success)
        && (progressValue, progressBar) == ProgressAfter(old(progressBar), old(progressValue), 100)
    {
      if pending.None? {
        return;
      }
      var t := pending.value;
      isLoading, pending := false, None;
      if t.spinner != null {
        t.spinner.classes := t.spinner.classes + {Hidden};
      }
      t.button.disabled := false;
      t.button.text, t.button.spinner := t.originalText, null;
      ShowToast(DemoDoneMessage, Success);
      UpdateProgressBar(100);
    }

    /**
     * handleFormSubmit: invalid data gives an error toast and leaves the form
     * as it was; valid data is passed on as the logged payload, thanks the
     * sender by name and resets the form.
     */
    method OnFormSubmit(form: ContactForm) returns (logged: Option<ContactFormData>)
      modifies this`toastElement, this`toastMessage, form
      ensures var d := old(form.Data());
        if !ValidateFormData(d) then
          && logged.None? && unchanged(form)
          && (toastElement, toastMessage) == ShownToast(old(toastElement), old(toastMessage), FormErrorMessage, Error)
        else
          && logged == Some(d)
          && (toastElement, toastMessage) ==
               ShownToast(old(toastElement), old(toastMessage), SuccessMessage(d.name.value), Success)
          && form.name == ResetValue(d.name) && form.email == ResetValue(d.email)
          && form.message == ResetValue(d.message)
    {
      var data := form.Data();
      if !ValidateFormData(data) {
        ShowToast(FormErrorMessage, Error);
        return None;
      }
      logged := Some(data);
      ShowToast(SuccessMessage(data.name.value), Success);
      form.Reset();
    }

    /** The forEach that removes 'active' from every nav link. */
    method ClearActive()
      modifies navLinks
      ensures navLinks[..] == WithoutActive(old(navLinks[..]))
    {
      var j := 0;
      while j < navLinks.Length
        invariant 0 <= j <= navLinks.Length
        invariant forall m :: 0 <= m < j ==> navLinks[m] == old(navLinks[m]) - {Active}
        invariant forall m :: j <= m < navLinks.Length ==> navLinks[m] == old(navLinks[m])
      {
        navLinks[j] := navLinks[j] - {Active};
        j := j + 1;
      }
    }

    /** The nav-link click handler: the clicked link becomes the only active one. */
    method OnNavLinkClick(k: nat)
      requires Valid() && k < navLinks.Length
      modifies navLinks
      ensures navLinks[..] == Activate(old(navLinks[..]), k)
    {
      ClearActive();
      navLinks[k] := navLinks[k] + {Active};
    }

    /**
     * The scroll handler: scan home, about, contact; each section that exists,
     * has a nav link and contains scrollY + 100 clears every link and activates
     * its own.
     */
    method OnScroll(layout: map<string, Section>, scrollY: int)
      requires Valid()
      modifies navLinks
      ensures navLinks[..] == AfterScroll(old(navLinks[..]), navHrefs, layout, scrollY)
    {
      var sections := SectionIds;
      var scrollPos := scrollY + ScrollOffset;
      ghost var start := navLinks[..];
      var i := 0;
      while i < |sections|
        invariant 0 <= i <= |sections|
        invariant navLinks[..] == ScanResult(start, navHrefs, layout, sections[..i], scrollPos)
      {
        ScanStep(start, navHrefs, layout, sections, i, scrollPos);
        var link := LinkFor(navHrefs, "#" + sections[i]);
        if sections[i] in layout && link.Some? {
          var section := layout[sections[i]];
          if scrollPos >= section.top && scrollPos < section.top + section.height {
            ghost var before := navLinks[..];
            ClearActive();
            navLinks[link.value] := navLinks[link.value] + {Active};
            assert navLinks[..] == Activate(before, link.value);
          }
        }
        i := i + 1;
      }
      assert sections[..i] == SectionIds;
    }
  }
}

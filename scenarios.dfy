/**
 * Client code that drives the App through three sequences: a double click on
 * the demo button, and a good and a bad submission of the contact form.
 * Everything follows from the handlers' contracts alone.
 */
module Scenarios {
  import opened Wrappers
  import opened ViewLogic
  import opened AppModel

  /** The form entries of a good and a bad submission, classified by validateFormData. */
  lemma ValidationExamples()
    ensures ValidateFormData(ContactFormData(Some("Al"), Some("a@b.com"), Some("hi")))
    ensures !ValidateFormData(ContactFormData(Some("A"), Some("bad"), Some("")))
  {
  }

  /**
   * Two clicks while Idle, then the timer: the second click is absorbed, and
   * the completion returns to Idle with the original label, the button
   * enabled and progress at 100.
   */
  method DemoDoubleClick(app: App, button: Button)
    requires app.Valid() && !app.isLoading && app.progressBar.Some?
    modifies app, button, button.spinner
    ensures app.Valid() && !app.isLoading && app.pending.None?
    ensures app.progressValue == 100 && app.progressBar == Some(Bar(100, 100))
    ensures !button.disabled && button.text == old(button.text)
  {
    app.OnDemoClick(button);
    ghost var busy := app.pending;
    assert button.text == BusyLabel;
    app.OnDemoClick(button);
    assert app.pending == busy && button.text == BusyLabel;
    app.TimerFires();
  }

  /** A good submission thanks "Al" and clears the form; a bad one shows the error and keeps the input. */
  method SubmitExamples() returns (goodLogged: Option<ContactFormData>, badLogged: Option<ContactFormData>)
    ensures goodLogged == Some(ContactFormData(Some("Al"), Some("a@b.com"), Some("hi")))
    ensures badLogged.None?
  {
    var app := new App([], [], None, Some({"toast", "bg-danger"}), Some(""));
    ValidationExamples();

    var good := new ContactForm(Some("Al"), Some("a@b.com"), Some("hi"));
    var logged := app.OnFormSubmit(good);
    goodLogged := logged;
    assert logged.Some?;
    assert app.toastMessage == Some(SuccessMessage("Al"));
    assert Includes(app.toastMessage.value, "Al");
    assert app.toastElement.value * SeverityClasses == {"bg-success"};
    assert good.name == Some("") && good.email == Some("") && good.message == Some("");

    var bad := new ContactForm(Some("A"), Some("bad"), Some(""));
    logged := app.OnFormSubmit(bad);
    assert logged.None?;
    assert app.toastMessage == Some(FormErrorMessage);
    assert app.toastElement.value * SeverityClasses == {"bg-danger"};
    assert bad.name == Some("A") && bad.email == Some("bad") && bad.message == Some("");
    badLogged := logged;
  }
}

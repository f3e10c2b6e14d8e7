/** The predictor's page and session logic (app.py lines 109-136 and the
    page dispatch of lines 137-138 and 187). Streamlit re-runs the whole
    script on every interaction; one run is modelled as a pure function from
    the session state kept by the previous run, the page chosen in the
    sidebar and the text typed into the name field, to the new session state
    and the page content the run shows. */
module Session {
  import opened Wrappers

  /** The three pages of the sidebar: "Tentang Aplikasi", "Prediksi Waktu
      Tidur" and "Hubungi Kami". */
  datatype Page = About | Predict | Contact

  /** The session state: the current page and the captured user name. */
  datatype State = State(page: Page, userName: Option<string>)

  /** What one run renders below the sidebar. */
  datatype View =
    | Landing(welcome: Option<string>)  // name form, with the greeting once a name was entered
    | PredictionForm
    | ContactPage
    | Blank                             // nothing: the landing page of a named user

  datatype Outcome = Outcome(state: State, view: View)

  /** One interaction: the sidebar choice and the content of the name field. */
  datatype Input = Input(selected: Page, typedName: string)

  /** The state of a fresh session: the landing page, no name. */
  const Initial: State := State(About, None)

  /** The state a run starts from: what the previous run kept, or the
      defaults when the session has no state yet. */
  function Restore(stored: Option<State>): (s: State)
    ensures stored.None? ==> s == Initial
    ensures stored.Some? ==> s == stored.value
  {
    match stored
    case None => Initial
    case Some(s) => s
  }

  /** One run of the script. The sidebar choice always overwrites the page;
      only a first visit to the landing page reads the name field, and a
      non-empty name is stored and moves the session to the prediction page. */
  function Run(stored: Option<State>, input: Input): (o: Outcome)
    // the name, once captured, is never replaced
    ensures Restore(stored).userName.Some? ==> o.state.userName == Restore(stored).userName
    // capture: landing page, no name yet, non-empty name typed
    ensures (Restore(stored).userName.None? && input.selected == About && |input.typedName| > 0)
              ==> o == Outcome(State(Predict, Some(input.typedName)), Landing(Some(input.typedName)))
    // every other run leaves the page on the sidebar choice
    ensures (Restore(stored).userName.Some? || input.selected != About || |input.typedName| == 0)
              ==> o.state == State(input.selected, Restore(stored).userName)
    // which content is shown depends on the sidebar choice and the name alone
    ensures o.view.PredictionForm? <==> input.selected == Predict
    ensures o.view.ContactPage? <==> input.selected == Contact
    ensures o.view.Landing? <==> input.selected == About && Restore(stored).userName.None?
    ensures o.view.Blank? <==> input.selected == About && Restore(stored).userName.Some?
    // the greeting appears exactly when a name was typed in that run
    ensures o.view.Landing? ==>
              o.view.welcome == (if |input.typedName| > 0 then Some(input.typedName) else None)
  {
    var s := State(input.selected, Restore(stored).userName);
    if s.page == About && s.userName.None? then
      if |input.typedName| > 0 then
        Outcome(State(Predict, Some(input.typedName)), Landing(Some(input.typedName)))
      else
        Outcome(s, Landing(None))
    else
      match s.page
      case Predict => Outcome(s, PredictionForm)
      case Contact => Outcome(s, ContactPage)
      case About => Outcome(s, Blank)
  }

  /** The state after a sequence of interactions. */
  function RunAll(stored: Option<State>, inputs: seq<Input>): (s: State)
    decreases |inputs|
  {
    if |inputs| == 0 then Restore(stored)
    else RunAll(Some(Run(stored, inputs[0]).state), inputs[1..])
  }

  /** A fresh session on the landing page with an empty name field shows
      the landing page and stays in the initial state. */
  lemma FirstRunShowsLanding()
    ensures Run(None, Input(About, "")) == Outcome(Initial, Landing(None))
  {
  }

  /** Once a name is stored it survives every later interaction. */
  lemma {:induction false} NameIsKept(s: State, inputs: seq<Input>)
    requires s.userName.Some?
    ensures RunAll(Some(s), inputs).userName == s.userName
    decreases |inputs|
  {
    if |inputs| > 0 {
      NameIsKept(Run(Some(s), inputs[0]).state, inputs[1..]);
    }
  }

  /** Without a non-empty name typed on the landing page the name stays
      missing, whatever pages are visited. */
  lemma {:induction false} NameNeedsLanding(s: State, inputs: seq<Input>)
    requires s.userName.None?
    requires forall k :: 0 <= k < |inputs| ==>
               inputs[k].selected != About || |inputs[k].typedName| == 0
    ensures RunAll(Some(s), inputs).userName.None?
    decreases |inputs|
  {
    if |inputs| > 0 {
      NameNeedsLanding(Run(Some(s), inputs[0]).state, inputs[1..]);
    }
  }

  /** The move to the prediction page lasts one run only: if the sidebar
      still shows the landing page on the next interaction, the page is set
      back to it and, the name being known, nothing is shown. */
  lemma RedirectIsOverwritten(name: string, next: string)
    requires |name| > 0
    ensures Run(None, Input(About, name)).state == State(Predict, Some(name))
    ensures Run(Some(Run(None, Input(About, name)).state), Input(About, next))
            == Outcome(State(About, Some(name)), Blank)
  {
  }
}

/**
  The registration form: validate the submitted fields, build a player with
  the starting balance, append it to the list of the chosen date and write the
  date's document back with its players and notes only.
 */
module EventForm {
  import opened Records

  /** The submitted form. `date` is the chosen event date as its ISO string,
      which is both the document key and the player's stored date. */
  datatype Form = Form(
    fullName: string,
    age: nat,
    secrets: string,
    email: string,
    phone: string,
    date: string)

  /** The form passes the "all fields are required" check: no text field is
      empty and the age is not 0. */
  predicate Accepts(f: Form) {
    f.fullName != "" && f.age != 0 && f.secrets != "" && f.email != "" && f.phone != ""
  }

  /** The player entry built from an accepted form. */
  function NewPlayer(f: Form): (p: Player)
    ensures p.fullName == f.fullName && p.age == f.age && p.secrets == f.secrets
    ensures p.email == f.email && p.phone == f.phone && p.eventDate == f.date
    ensures p.currency == Some(StartingCurrency) && CurrencyOf(p) == 2000
  {
    Player(f.fullName, f.age, f.secrets, f.email, f.phone, f.date, Some(StartingCurrency))
  }

  /** The document written for an accepted form, given the one stored under its
      date (the empty document when there is none). */
  function Written(existing: Record, f: Form): Record {
    Record(Some(PlayersOf(existing) + [NewPlayer(f)]), Some(NotesOf(existing)), None)
  }

  /** The store after one submission: unchanged when the form is rejected,
      otherwise the date's document replaced by `Written`. */
  function Submit(events: map<string, Record>, f: Form): map<string, Record> {
    if Accepts(f) then events[f.date := Written(Lookup(events, f.date), f)] else events
  }

  /** A submission writes something exactly when every text field is filled
      and the age is not 0; otherwise the store is left as it was. */
  lemma SubmitWritesIffAllFieldsFilled(events: map<string, Record>, f: Form)
    ensures Submit(events, f) != events
            <==> f.fullName != "" && f.age != 0 && f.secrets != "" && f.email != "" && f.phone != ""
  {
  }

  /** An accepted submission appends exactly one player at the end of its
      date's list; earlier players keep their values and order, the date's
      notes are carried over, the pot reads as 0 and other dates are untouched. */
  lemma SubmitAppends(events: map<string, Record>, f: Form)
    requires Accepts(f)
    ensures var ps, qs := PlayersOf(Lookup(events, f.date)), PlayersOf(Submit(events, f)[f.date]);
            && |qs| == |ps| + 1
            && qs[..|ps|] == ps
            && qs[|ps|] == NewPlayer(f)
            && NotesOf(Submit(events, f)[f.date]) == NotesOf(Lookup(events, f.date))
            && PotOf(Submit(events, f)[f.date]) == 0
    ensures forall d :: d in events && d != f.date ==> d in Submit(events, f) && Submit(events, f)[d] == events[d]
    ensures Submit(events, f).Keys == events.Keys + {f.date}
  {
  }

  /** The first submission for a date writes a document holding just the new
      player and empty notes. */
  lemma FirstSubmission(events: map<string, Record>, f: Form)
    requires Accepts(f) && f.date !in events
    ensures PlayersOf(Submit(events, f)[f.date]) == [NewPlayer(f)]
    ensures NotesOf(Submit(events, f)[f.date]) == ""
  {
  }

  /** Two submissions for the same date accumulate in that date's list, in
      submission order. */
  lemma SubmissionsAccumulate(events: map<string, Record>, f: Form, g: Form)
    requires Accepts(f) && Accepts(g) && f.date == g.date
    ensures PlayersOf(Submit(Submit(events, f), g)[g.date])
            == PlayersOf(Lookup(events, f.date)) + [NewPlayer(f), NewPlayer(g)]
  {
  }

  /** The write keeps players and notes only: the date's pot is lost, so its
      total becomes the old players' balances plus the new 2000. */
  lemma SubmitDropsPot(events: map<string, Record>, f: Form)
    requires Accepts(f)
    ensures Total(Submit(events, f)[f.date])
            == Total(Lookup(events, f.date)) - PotOf(Lookup(events, f.date)) + StartingCurrency
  {
    SumCurrencyAppend(PlayersOf(Lookup(events, f.date)), NewPlayer(f));
  }

  /** A submission keeps every balance and every pot non-negative. */
  lemma SubmitKeepsNonNegative(events: map<string, Record>, f: Form)
    requires forall d :: d in events ==> NonNegative(events[d])
    ensures forall d :: d in Submit(events, f) ==> NonNegative(Submit(events, f)[d])
  {
  }
}

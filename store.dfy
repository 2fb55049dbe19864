/**
  The event store as the two pages change it in place: a dictionary from event
  date to record. Each method performs one button's read-modify-write and is
  proved to write exactly the record the matching function computes.
 */
module Store {
  import opened Records
  import Admin
  import EventForm

  class EventStore {
    var events: map<string, Record>

    /** Every stored balance and pot is non-negative. */
    predicate Valid()
      reads this
    {
      forall d :: d in events ==> NonNegative(events[d])
    }

    constructor (initial: map<string, Record>)
      ensures events == initial
      ensures Valid() <==> forall d :: d in initial ==> NonNegative(initial[d])
    {
      events := initial;
    }

    /** Registration form submit: validate, build the player, fetch the date's
        players (or none), append, and overwrite the document with players and
        notes. */
    method Register(f: EventForm.Form) returns (accepted: bool)
      modifies this
      ensures accepted == EventForm.Accepts(f)
      ensures !accepted ==> events == old(events)
      ensures events == EventForm.Submit(old(events), f)
      ensures old(Valid()) ==> Valid()
    {
      if f.fullName == "" || f.age == 0 || f.secrets == "" || f.email == "" || f.phone == "" {
        return false;
      }
      var newUser := Player(f.fullName, f.age, f.secrets, f.email, f.phone, f.date, Some(StartingCurrency));
      var docExists := f.date in events;
      var players: seq<Player>;
      if docExists {
        players := events[f.date].players.GetOr([]);
      } else {
        players := [];
      }
      players := players + [newUser];
      var notes := if docExists then events[f.date].notes.GetOr("") else "";
      if Valid() {
        EventForm.SubmitKeepsNonNegative(events, f);
      }
      events := events[f.date := Record(Some(players), Some(notes), None)];
      accepted := true;
    }

    /** "Deduct Currency" for player `k` of `date`: refused when the player
        has less than `amount`, otherwise the balance and the pot are written. */
    method Deduct(date: string, k: nat, amount: nat) returns (done: bool)
      requires date in events && k < |PlayersOf(events[date])|
      modifies this
      ensures done <==> amount <= Admin.CurrencyAt(old(events)[date], k)
      ensures !done ==> events == old(events)
      ensures done ==> events == old(events)[date := Admin.Deduct(old(events)[date], k, amount).record]
      ensures old(Valid()) ==> Valid()
    {
      var r := events[date];
      var currentCurrency := CurrencyOf(PlayersOf(r)[k]);
      var currencyPot := PotOf(r);
      if amount > currentCurrency {
        return false;
      }
      var newCurrency := currentCurrency - amount;
      currencyPot := currencyPot + amount;
      var players := PlayersOf(r);
      players := players[k := players[k].(currency := Some(newCurrency))];
      if Valid() {
        Admin.TransfersKeepNonNegative(r, k, amount);
      }
      events := events[date := r.(players := Some(players), currencyPot := Some(currencyPot))];
      done := true;
    }

    /** "Add Currency" for player `k` of `date`: refused when the pot holds
        less than `amount`, otherwise the balance and the pot are written. */
    method Add(date: string, k: nat, amount: nat) returns (done: bool)
      requires date in events && k < |PlayersOf(events[date])|
      modifies this
      ensures done <==> amount <= PotOf(old(events)[date])
      ensures !done ==> events == old(events)
      ensures done ==> events == old(events)[date := Admin.Add(old(events)[date], k, amount).record]
      ensures old(Valid()) ==> Valid()
    {
      var r := events[date];
      var currentCurrency := CurrencyOf(PlayersOf(r)[k]);
      var currencyPot := PotOf(r);
      if amount > currencyPot {
        return false;
      }
      var newCurrency := currentCurrency + amount;
      currencyPot := currencyPot - amount;
      var players := PlayersOf(r);
      players := players[k := players[k].(currency := Some(newCurrency))];
      if Valid() {
        Admin.TransfersKeepNonNegative(r, k, amount);
      }
      events := events[date := r.(players := Some(players), currencyPot := Some(currencyPot))];
      done := true;
    }

    /** "Delete Player" for player `k` of `date`: every player with the same
        full name is filtered out and the list is written back. */
    method DeletePlayer(date: string, k: nat)
      requires date in events && k < |PlayersOf(events[date])|
      modifies this
      ensures events == old(events)[date := Admin.DeleteByName(old(events)[date], k)]
      ensures old(Valid()) ==> Valid()
    {
      var r := events[date];
      var players := PlayersOf(r);
      var player := players[k];
      players := Admin.RemoveNamed(players, player.fullName);
      if Valid() {
        Admin.DeleteKeepsNonNegative(r, k);
      }
      events := events[date := r.(players := Some(players))];
    }

    /** "Save Notes" for `date`: the date's notes are overwritten. */
    method SaveNotes(date: string, text: string)
      requires date in events
      modifies this
      ensures events == old(events)[date := Admin.WithNotes(old(events)[date], text)]
      ensures old(Valid()) ==> Valid()
    {
      var r := events[date];
      if Valid() {
        Admin.WithNotesKeepsNonNegative(r, text);
      }
      events := events[date := r.(notes := Some(text))];
    }
  }
}

/**
  What the admin dashboard does to one event date's record: move currency
  between a player and the pot (deduct and add), delete players by name, and
  save the date's notes. Each operation is a function from the record read
  before the click to the record written back; the store's methods apply them.
 */
module Admin {
  import opened Records

  /** Why a transfer was refused; a refused transfer writes nothing. */
  datatype Refusal = InsufficientBalance | InsufficientPot

  datatype Outcome = Done(record: Record) | Refused(reason: Refusal)

  /** Balance of the player at position `k` (the page's `i - 1`). */
  function CurrencyAt(r: Record, k: nat): int
    requires k < |PlayersOf(r)|
  {
    CurrencyOf(PlayersOf(r)[k])
  }

  /** `after` differs from `before` at most in the currency of player `k` and
      in the pot: same notes, same number of players, every other player
      untouched and player `k` changed in its currency alone. */
  predicate OnlyTransferFields(before: Record, after: Record, k: nat)
    requires k < |PlayersOf(before)|
  {
    var ps, qs := PlayersOf(before), PlayersOf(after);
    && after.notes == before.notes
    && |qs| == |ps|
    && qs[k] == ps[k].(currency := qs[k].currency)
    && forall j :: 0 <= j < |ps| && j != k ==> qs[j] == ps[j]
  }

  /** Writes `balance` as player `k`'s currency and `pot` as the pot. */
  function SetBalances(r: Record, k: nat, balance: int, pot: int): (r': Record)
    requires k < |PlayersOf(r)|
    ensures k < |PlayersOf(r')| && CurrencyAt(r', k) == balance && PotOf(r') == pot
    ensures OnlyTransferFields(r, r', k)
  {
    var ps := PlayersOf(r);
    r.(players := Some(ps[k := ps[k].(currency := Some(balance))]), currencyPot := Some(pot))
  }

  /** Deduct `amount` from player `k` into the pot (admin.py, "Deduct Currency"). */
  function Deduct(r: Record, k: nat, amount: nat): (o: Outcome)
    requires k < |PlayersOf(r)|
    ensures o.Refused? <==> amount > CurrencyAt(r, k)
    ensures o.Refused? ==> o.reason == InsufficientBalance
    ensures o.Done? ==> k < |PlayersOf(o.record)|
                        && CurrencyAt(o.record, k) == CurrencyAt(r, k) - amount
                        && PotOf(o.record) == PotOf(r) + amount
                        && CurrencyAt(o.record, k) >= 0
                        && OnlyTransferFields(r, o.record, k)
  {
    var current := CurrencyAt(r, k);
    if amount > current then Refused(InsufficientBalance)
    else Done(SetBalances(r, k, current - amount, PotOf(r) + amount))
  }

  /** Add `amount` from the pot to player `k` (admin.py, "Add Currency"). */
  function Add(r: Record, k: nat, amount: nat): (o: Outcome)
    requires k < |PlayersOf(r)|
    ensures o.Refused? <==> amount > PotOf(r)
    ensures o.Refused? ==> o.reason == InsufficientPot
    ensures o.Done? ==> k < |PlayersOf(o.record)|
                        && CurrencyAt(o.record, k) == CurrencyAt(r, k) + amount
                        && PotOf(o.record) == PotOf(r) - amount
                        && PotOf(o.record) >= 0
                        && OnlyTransferFields(r, o.record, k)
  {
    var pot := PotOf(r);
    if amount > pot then Refused(InsufficientPot)
    else Done(SetBalances(r, k, CurrencyAt(r, k) + amount, pot - amount))
  }

  /** A successful deduct keeps the player's balance plus the pot, and the
      whole date's currency, unchanged. */
  lemma DeductConserves(r: Record, k: nat, amount: nat)
    requires k < |PlayersOf(r)|
    ensures Deduct(r, k, amount).Done? ==>
              var r' := Deduct(r, k, amount).record;
              CurrencyAt(r', k) + PotOf(r') == CurrencyAt(r, k) + PotOf(r)
              && Total(r') == Total(r)
  {
    var o := Deduct(r, k, amount);
    if o.Done? {
      SumCurrencyUpdate(PlayersOf(r), k, PlayersOf(o.record)[k]);
      assert PlayersOf(o.record) == PlayersOf(r)[k := PlayersOf(o.record)[k]];
    }
  }

  /** A successful add keeps the player's balance plus the pot, and the whole
      date's currency, unchanged. */
  lemma AddConserves(r: Record, k: nat, amount: nat)
    requires k < |PlayersOf(r)|
    ensures Add(r, k, amount).Done? ==>
              var r' := Add(r, k, amount).record;
              CurrencyAt(r', k) + PotOf(r') == CurrencyAt(r, k) + PotOf(r)
              && Total(r') == Total(r)
  {
    var o := Add(r, k, amount);
    if o.Done? {
      SumCurrencyUpdate(PlayersOf(r), k, PlayersOf(o.record)[k]);
      assert PlayersOf(o.record) == PlayersOf(r)[k := PlayersOf(o.record)[k]];
    }
  }

  /** Neither transfer makes a balance or the pot negative. */
  lemma TransfersKeepNonNegative(r: Record, k: nat, amount: nat)
    requires k < |PlayersOf(r)| && NonNegative(r)
    ensures Deduct(r, k, amount).Done? ==> NonNegative(Deduct(r, k, amount).record)
    ensures Add(r, k, amount).Done? ==> NonNegative(Add(r, k, amount).record)
  {
  }

  /** One admin click on the "Event" page. */
  datatype Transfer = DeductFrom(k: nat, amount: nat) | AddTo(k: nat, amount: nat)

  function TransferIndex(t: Transfer): nat {
    match t
    case DeductFrom(k, _) => k
    case AddTo(k, _) => k
  }

  /** The record after one click: the written record, or the old one when the
      click was refused. */
  function Step(r: Record, t: Transfer): (r': Record)
    requires TransferIndex(t) < |PlayersOf(r)|
    ensures |PlayersOf(r')| == |PlayersOf(r)|
  {
    var o := match t
      case DeductFrom(k, amount) => Deduct(r, k, amount)
      case AddTo(k, amount) => Add(r, k, amount);
    if o.Done? then o.record else r
  }

  /** The record after a sequence of clicks, each on an existing player. */
  function Run(r: Record, ts: seq<Transfer>): (r': Record)
    requires forall i :: 0 <= i < |ts| ==> TransferIndex(ts[i]) < |PlayersOf(r)|
    ensures |PlayersOf(r')| == |PlayersOf(r)|
    decreases |ts|
  {
    if ts == [] then r else Run(Step(r, ts[0]), ts[1..])
  }

  /** Any sequence of transfers, refused or not, keeps the date's total
      currency and keeps every balance and the pot non-negative. */
  lemma {:induction false} RunConservesTotal(r: Record, ts: seq<Transfer>)
    requires forall i :: 0 <= i < |ts| ==> TransferIndex(ts[i]) < |PlayersOf(r)|
    ensures Total(Run(r, ts)) == Total(r)
    ensures NonNegative(r) ==> NonNegative(Run(r, ts))
    decreases |ts|
  {
    if ts != [] {
      var t := ts[0];
      if t.DeductFrom? {
        DeductConserves(r, t.k, t.amount);
      } else {
        AddConserves(r, t.k, t.amount);
      }
      if NonNegative(r) {
        TransfersKeepNonNegative(r, t.k, t.amount);
      }
      RunConservesTotal(Step(r, t), ts[1..]);
    }
  }

  /** The balances and pot of a one-player date through deduct 500, a refused
      deduct of 2000, then add 500. */
  lemma TransferScenario(p: Player)
    requires p.currency == Some(2000)
    ensures var r0 := Record(Some([p]), None, Some(0));
            var o1 := Deduct(r0, 0, 500);
            && o1.Done? && CurrencyAt(o1.record, 0) == 1500 && PotOf(o1.record) == 500
            && Deduct(o1.record, 0, 2000) == Refused(InsufficientBalance)
            && Add(o1.record, 0, 500).Done?
            && CurrencyAt(Add(o1.record, 0, 500).record, 0) == 2000
            && PotOf(Add(o1.record, 0, 500).record) == 0
  {
  }

  /** How many players of `ps` carry the name `name`. */
  function CountNamed(ps: seq<Player>, name: string): nat {
    if ps == [] then 0 else (if ps[0].fullName == name then 1 else 0) + CountNamed(ps[1..], name)
  }

  /** The players of `ps` whose full name differs from `name`, in their order
      (the list comprehension of the "Delete Player" button). */
  function RemoveNamed(ps: seq<Player>, name: string): (qs: seq<Player>)
    ensures |qs| == |ps| - CountNamed(ps, name)
    ensures forall q :: q in qs <==> q in ps && q.fullName != name
  {
    if ps == [] then []
    else if ps[0].fullName == name then RemoveNamed(ps[1..], name)
    else [ps[0]] + RemoveNamed(ps[1..], name)
  }

  /** Filtering a concatenation filters each part and keeps them in order:
      survivors keep their relative order. */
  lemma {:induction false} RemoveNamedKeepsOrder(a: seq<Player>, b: seq<Player>, name: string)
    ensures RemoveNamed(a + b, name) == RemoveNamed(a, name) + RemoveNamed(b, name)
  {
    if a == [] {
      assert a + b == b;
    } else {
      assert (a + b)[0] == a[0] && (a + b)[1..] == a[1..] + b;
      RemoveNamedKeepsOrder(a[1..], b, name);
    }
  }

  /** A list with no player of that name is left as it is. */
  lemma {:induction false} RemoveNamedKeepsUnnamed(ps: seq<Player>, name: string)
    requires forall i :: 0 <= i < |ps| ==> ps[i].fullName != name
    ensures RemoveNamed(ps, name) == ps
  {
    if ps != [] {
      assert forall i :: 0 <= i < |ps[1..]| ==> ps[1..][i] == ps[i + 1];
      RemoveNamedKeepsUnnamed(ps[1..], name);
      assert [ps[0]] + ps[1..] == ps;
    }
  }

  /** The player whose button was pressed is counted among those removed. */
  lemma {:induction false} ChosenIsCounted(ps: seq<Player>, k: nat)
    requires k < |ps|
    ensures CountNamed(ps, ps[k].fullName) >= 1
  {
    if k > 0 {
      assert ps[1..][k - 1] == ps[k];
      ChosenIsCounted(ps[1..], k - 1);
    }
  }

  /** Delete player `k` as the page does: drop every player sharing its full
      name and write the list back; notes and pot stay. */
  function DeleteByName(r: Record, k: nat): (r': Record)
    requires k < |PlayersOf(r)|
    ensures var ps, name := PlayersOf(r), PlayersOf(r)[k].fullName;
            && PlayersOf(r') == RemoveNamed(ps, name)
            && (forall q :: q in PlayersOf(r') ==> q.fullName != name)
            && |PlayersOf(r')| == |ps| - CountNamed(ps, name) < |ps|
            && r'.notes == r.notes && r'.currencyPot == r.currencyPot
  {
    var ps := PlayersOf(r);
    ChosenIsCounted(ps, k);
    r.(players := Some(RemoveNamed(ps, ps[k].fullName)))
  }

  /** Save notes: only the notes of the record change. */
  function WithNotes(r: Record, text: string): (r': Record)
    ensures NotesOf(r') == text
    ensures r'.players == r.players && r'.currencyPot == r.currencyPot
  {
    r.(notes := Some(text))
  }

  /** Deleting players never makes a balance or the pot negative. */
  lemma DeleteKeepsNonNegative(r: Record, k: nat)
    requires k < |PlayersOf(r)| && NonNegative(r)
    ensures NonNegative(DeleteByName(r, k))
  {
  }

  /** Saving notes, on a date with or without players, never makes a balance
      or the pot negative. */
  lemma WithNotesKeepsNonNegative(r: Record, text: string)
    requires NonNegative(r)
    ensures NonNegative(WithNotes(r, text))
  {
    assert PlayersOf(WithNotes(r, text)) == PlayersOf(r);
  }
}

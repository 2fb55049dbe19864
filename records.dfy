/**
  The stored shape of the event store: one record per event date, each holding
  a player list, free-text notes and a currency pot. A stored document may lack
  any of its keys; every read supplies the default the admin page uses.
 */
module Records {

  datatype Option<T> = None | Some(value: T)
  {
    /** The stored value, or `default` when the key is absent. */
    function GetOr(default: T): T {
      if Some? then value else default
    }
  }

  /** One entry of an event's player list. `currency` is absent in entries
      that were written without it. */
  datatype Player = Player(
    fullName: string,
    age: int,
    secrets: string,
    email: string,
    phone: string,
    eventDate: string,
    currency: Option<int>)

  /** The document stored under one event date. Each field is `None` when the
      document has no such key. */
  datatype Record = Record(
    players: Option<seq<Player>>,
    notes: Option<string>,
    currencyPot: Option<int>)

  /** The balance a new player starts with, and the balance read for a player
      entry without one. */
  const StartingCurrency: int := 2000

  /** What a date without a document reads as: an empty document. */
  const EmptyRecord: Record := Record(None, None, None)

  function PlayersOf(r: Record): seq<Player> {
    r.players.GetOr([])
  }

  function NotesOf(r: Record): string {
    r.notes.GetOr("")
  }

  function PotOf(r: Record): int {
    r.currencyPot.GetOr(0)
  }

  function CurrencyOf(p: Player): int {
    p.currency.GetOr(StartingCurrency)
  }

  /** The record stored under `date`, or the empty document. */
  function Lookup(events: map<string, Record>, date: string): Record {
    if date in events then events[date] else EmptyRecord
  }

  /** A date without a document, or a document without `players` or `notes`,
      reads as no players and empty notes; present keys read as stored. */
  lemma MissingRecordFieldsReadAsDefaults(events: map<string, Record>, date: string)
    ensures date !in events ==> PlayersOf(Lookup(events, date)) == [] && NotesOf(Lookup(events, date)) == ""
    ensures date in events ==> Lookup(events, date) == events[date]
    ensures var r := Lookup(events, date);
            && (r.players.None? ==> PlayersOf(r) == [])
            && (r.players.Some? ==> PlayersOf(r) == r.players.value)
            && (r.notes.None? ==> NotesOf(r) == "")
            && (r.notes.Some? ==> NotesOf(r) == r.notes.value)
  {
  }

  /** A document without `currency_pot` has a pot of 0. */
  lemma MissingPotReadsZero(r: Record)
    ensures r.currencyPot.None? ==> PotOf(r) == 0
    ensures r.currencyPot.Some? ==> PotOf(r) == r.currencyPot.value
  {
  }

  /** A player entry without `currency` has the starting balance of 2000. */
  lemma MissingCurrencyReadsStartingBalance(p: Player)
    ensures p.currency.None? ==> CurrencyOf(p) == 2000
    ensures p.currency.Some? ==> CurrencyOf(p) == p.currency.value
  {
  }

  /** Sum of the balances of a player list, each read with its default. */
  function SumCurrency(ps: seq<Player>): int {
    if ps == [] then 0 else CurrencyOf(ps[0]) + SumCurrency(ps[1..])
  }

  /** All currency held for one event date: every player's balance and the pot. */
  function Total(r: Record): int {
    SumCurrency(PlayersOf(r)) + PotOf(r)
  }

  /** No balance of the record, and not its pot, is negative. */
  predicate NonNegative(r: Record) {
    && PotOf(r) >= 0
    && forall i :: 0 <= i < |PlayersOf(r)| ==> CurrencyOf(PlayersOf(r)[i]) >= 0
  }

  /** Appending a player adds exactly that player's balance to the sum. */
  lemma {:induction false} SumCurrencyAppend(ps: seq<Player>, p: Player)
    ensures SumCurrency(ps + [p]) == SumCurrency(ps) + CurrencyOf(p)
  {
    if ps != [] {
      assert (ps + [p])[1..] == ps[1..] + [p];
      SumCurrencyAppend(ps[1..], p);
    }
  }

  /** Replacing the player at `k` changes the sum by the change of that one
      player's balance. */
  lemma {:induction false} SumCurrencyUpdate(ps: seq<Player>, k: nat, p: Player)
    requires k < |ps|
    ensures SumCurrency(ps[k := p]) == SumCurrency(ps) - CurrencyOf(ps[k]) + CurrencyOf(p)
  {
    if k > 0 {
      assert ps[k := p][1..] == ps[1..][k - 1 := p];
      SumCurrencyUpdate(ps[1..], k - 1, p);
    } else {
      assert ps[k := p][1..] == ps[1..];
    }
  }
}

# Event store: registration form and admin ledger

This project models the event store behind the event-registration form and the
admin dashboard. The store maps an event date, as an ISO `YYYY-MM-DD` string,
to one record. A record holds:

- `players`: an ordered list of player entries with `full_name`, `age`,
  `secrets`, `email`, `phone`, `event_date` and `currency`;
- `notes`: free text for the date;
- `currency_pot`: the date's shared pot.

Any of these keys may be missing from a stored document. Every read supplies the
default the pages use: no players, empty notes, a pot of 0 and a player balance
of 2000.

Five operations change a record:

- **register** (form submit): checks that every field is filled and the age is
  not 0, builds a player with balance 2000, appends it to the date's list and
  overwrites the date's document with `players` and `notes` only;
- **deduct**: moves an amount from one player into the pot, refused when the
  player holds less;
- **add**: moves an amount from the pot to one player, refused when the pot
  holds less;
- **delete**: removes every player whose `full_name` equals the chosen
  player's;
- **save notes**: overwrites the date's notes.

Layout:

- `records.dfy` (module `Records`) holds the stored shape, the default reads,
  the sum of balances and the non-negativity predicate.
- `admin.dfy` (module `Admin`) holds the admin operations as functions from the
  record before a click to the record written back, with their lemmas.
- `eventform.dfy` (module `EventForm`) holds validation, player construction
  and the document write of the registration form, with their lemmas.
- `store.dfy` (module `Store`) holds class `EventStore`. Its field `events` is
  the dictionary the pages mutate. Each method performs one button's
  read-modify-write in the source's steps, and its `ensures` proves it writes
  exactly what the matching function computes. Each method also keeps the
  invariant `Valid()`: every balance and every pot is non-negative.

The model follows the code as written, including three behaviours worth
knowing:

- Delete matches on `full_name`, so it removes every same-named player.
- `not age` rejects an age of 0.
- A registration rewrites the date's document with `players` and `notes`
  only. An existing `currency_pot` is lost, so it reads as 0 afterwards.
  `EventForm.SubmitDropsPot` states how the date's total changes.

Transfers conserve currency: each successful deduct or add keeps the player's
balance plus the pot, and the date's total, unchanged. `Admin.RunConservesTotal`
extends this to any sequence of transfers.

## Model

| member | source | states |
|---|---|---|
| `Records.MissingRecordFieldsReadAsDefaults` | admin.py:99-103 | A date without a document reads as no players and empty notes. A document missing `players` or `notes` reads as `[]` or `""`. Present keys read as stored. |
| `Records.MissingPotReadsZero` | admin.py:202 | A document without `currency_pot` has a pot of 0. Otherwise the stored value is used. |
| `Records.MissingCurrencyReadsStartingBalance` | admin.py:232 | A player entry without `currency` has a balance of 2000. Otherwise the stored value is used. |
| `Admin.Deduct` | admin.py:256-264 | Refused (insufficient balance) exactly when the amount exceeds the player's balance. Otherwise the balance drops by the amount and stays >= 0, and the pot rises by the amount. Only that player's currency and the pot change; notes and every other player are untouched. |
| `Admin.Add` | admin.py:271-279 | Refused (insufficient pot) exactly when the amount exceeds the pot. Otherwise the balance rises by the amount, and the pot drops by it and stays >= 0. Only that player's currency and the pot change. |
| `Admin.DeductConserves` | admin.py:258-264 | After a successful deduct, the player's balance plus the pot is unchanged. So is the sum of all balances plus the pot. |
| `Admin.AddConserves` | admin.py:273-279 | After a successful add, the player's balance plus the pot is unchanged. So is the sum of all balances plus the pot. |
| `Admin.TransfersKeepNonNegative` | admin.py:256-279 | From a record with no negative balance or pot, a successful deduct or add leaves none negative. |
| `Admin.RunConservesTotal` | admin.py:231-279 | Any sequence of deduct/add clicks on existing players, refused or not, keeps the date's total currency. It keeps non-negativity. |
| `Admin.TransferScenario` | admin.py:256-279 | A 2000-balance player with pot 0: deduct 500 gives 1500/500. Then a deduct of 2000 is refused. Then add 500 gives 2000/0. |
| `Admin.RemoveNamed` | admin.py:149 | The filtered list holds exactly the players of the input whose name differs from the chosen name. Its length is the input's minus the number of same-named players. |
| `Admin.RemoveNamedKeepsOrder` | admin.py:149 | Filtering a concatenation is the concatenation of the filtered parts, so survivors keep their relative order. |
| `Admin.RemoveNamedKeepsUnnamed` | admin.py:149 | A list with no player of that name comes back unchanged. |
| `Admin.ChosenIsCounted` | admin.py:139-149 | The chosen player's own name occurs at least once, so at least one player is removed. |
| `Admin.DeleteByName` | admin.py:147-152 | The written list is the name filter of the old list. It holds no player with the chosen name. It is shorter by the number of same-named players, at least 1. Notes and pot are unchanged. |
| `Admin.WithNotes` | admin.py:164-165 | The notes read as the saved text. The players and pot fields are unchanged. |
| `Admin.DeleteKeepsNonNegative` | admin.py:147-152 | From a record with no negative balance or pot, deleting by name leaves none negative. |
| `Admin.WithNotesKeepsNonNegative` | admin.py:160-165 | From a record with no negative balance or pot, saving notes leaves none negative. This holds for a date with no players too, since the notes box is shown outside the player list. |
| `EventForm.NewPlayer` | eventform.py:40-48 | The new player copies name, age, secrets, email and phone from the form. It stores the event date string. Its currency is exactly 2000. |
| `EventForm.SubmitWritesIffAllFieldsFilled` | eventform.py:35-38 | A submission changes the store if and only if name, secrets, email and phone are non-empty and the age is not 0. Otherwise nothing is written. |
| `EventForm.SubmitAppends` | eventform.py:56-70 | An accepted submission grows the date's list by exactly one. Earlier players keep their values and order, and the new player is last. The notes are carried over. Other stored dates are untouched, and the only key that can appear is the submitted date. |
| `EventForm.FirstSubmission` | eventform.py:57-69 | For a date without a document, the written record holds just the new player and empty notes. |
| `EventForm.SubmissionsAccumulate` | eventform.py:51-64 | Two accepted submissions for one date go to the same key. That date's list becomes the old list plus both players in submission order. |
| `EventForm.SubmitDropsPot` | eventform.py:67-70 | The written document has players and notes only. The pot reads as 0, and the date's total becomes the old balances plus 2000. |
| `EventForm.SubmitKeepsNonNegative` | eventform.py:40-70 | If no stored balance or pot is negative before a submission, none is negative after it. |
| `Store.EventStore.Register` | eventform.py:35-70 | Accepted exactly when the form passes validation. The store becomes `Submit` of the old store, which is unchanged when rejected. It keeps `Valid()`. |
| `Store.EventStore.Deduct` | admin.py:256-265 | Done exactly when the amount is at most the player's balance. When refused, the store is unchanged. Otherwise only the date's record is replaced, by `Admin.Deduct`'s result. It keeps `Valid()`. |
| `Store.EventStore.Add` | admin.py:271-280 | Done exactly when the amount is at most the pot. When refused, the store is unchanged. Otherwise only the date's record is replaced, by `Admin.Add`'s result. It keeps `Valid()`. |
| `Store.EventStore.DeletePlayer` | admin.py:147-155 | Only the date's record is replaced, by `Admin.DeleteByName`'s result. It keeps `Valid()`. |
| `Store.EventStore.SaveNotes` | admin.py:164-166 | Only the date's record is replaced, by `Admin.WithNotes`'s result. It keeps `Valid()`. |

## Left out

- Page rendering is not modelled: layout, CSS, expanders, columns, charts, tables, reruns, balloons and messages. A warning means "refused, state unchanged".
- The access-code login gate is not modelled. It is a plaintext comparison in the UI.
- Loading and saving the JSON file is not modelled, and neither are document-store initialisation and calls. Storage is an in-memory map. Exceptions raised by storage are outside the model.
- Date parsing and formatting are not modelled, and neither is the sorting of date keys. A date is an opaque string. The page converts a stored key to a date and back, so a non-canonical key would not be found; the model assumes keys are canonical. For a date, the form's `str(event_date)` and `isoformat()` give the same string, so one `date` field serves both.
- Concurrent admin sessions are not modelled. Two sessions doing read-modify-write on the same pot can lose an update; the code does nothing about this.
- Streamlit widget-key clashes are not modelled. On the Event page two players with the same name repeat the amount inputs' labels (admin.py:256, 271) and the button keys (admin.py:257, 272). Streamlit raises a duplicate-widget error when it reaches the second of them, so that player and every later one get no transfer controls. `Store.EventStore.Deduct` and `Store.EventStore.Add` accept any listed index, so the model allows transfers the page cannot reach.
- The model merges two storage backends. In the source the admin page reads and writes a local JSON file (`data["events"][date]`). The form writes only to a document store (collection `events`, document `date`), never to that file. Both hold the same record shape, and the model puts them over one in-memory map, so a registration is visible to the admin operations. So the pot lost in `EventForm.SubmitDropsPot` is the document store's pot. In the source a registration never resets the pot in the admin page's JSON file.
- The store methods for the admin page each require the date to be stored, and the transfers and delete also require the player index to exist. The page only offers stored dates and listed players.
- Email-format checks, duplicate-email rejection, positional delete, renaming, per-player notes and a strict-ledger registration that keeps the pot are not modelled. This code does not implement them.

/** The profile editor: loads every record of one person for the signed-in
    user, newest first, edits the selected record, deletes single records and
    summarises recent history. The record store is a map from record id to
    row; its query is an input whose answer the store guarantees. */
module EditProfile {
  import opened Base
  import opened Text

  type Id = int

  /** A row of the `people` table. */
  datatype Row = Row(
    id: Id,
    ownerId: string,
    name: string,
    photoUrl: string,
    event: Option<string>,
    location: Option<string>,
    date: Option<string>,
    createdAt: int)

  /** The columns an update writes. */
  datatype Fields = Fields(name: string, event: Option<string>, location: Option<string>, date: Option<string>)

  datatype Alert = Alert(title: string, message: string)

  const LoadFailed: Alert := Alert("Error", "Failed to load profile records")
  const NoPhotoSelected: Alert := Alert("Error", "Please select a photo")
  const Saved: Alert := Alert("Success", "Profile updated successfully")
  const SaveFailed: Alert := Alert("Error", "Failed to save profile")
  const Deleted: Alert := Alert("Success", "Record deleted")
  const DeleteFailed: Alert := Alert("Error", "Failed to delete record")

  /** The outcome of the store query: the rows, or an error. */
  datatype Fetch = Fetched(rows: seq<Row>) | FetchFailed

  /** Every row is stored under its own id. */
  ghost predicate WellKeyed(store: map<Id, Row>) {
    forall id :: id in store ==> store[id].id == id
  }

  /** The rows of `owner` whose name is exactly `name` (case-sensitive). */
  function Matching(store: map<Id, Row>, owner: string, name: string): set<Row> {
    set k | k in store && store[k].ownerId == owner && store[k].name == name :: store[k]
  }

  /** Ordered by `created_at`, newest first. */
  predicate NewestFirst(rows: seq<Row>) {
    forall i, j :: 0 <= i < j < |rows| ==> rows[i].createdAt >= rows[j].createdAt
  }

  /** `rows` is an answer the store may give to the query for `owner`'s
      records named `name`, ordered by `created_at` descending: each matching
      row exactly once, in that order. */
  ghost predicate IsAnswer(store: map<Id, Row>, owner: string, name: string, rows: seq<Row>) {
    NewestFirst(rows) && multiset(rows) == multiset(Matching(store, owner, name))
  }

  /** The record the editor selects after a load, `data[0]`, is a matching
      record and none is newer. */
  lemma SelectedIsNewest(store: map<Id, Row>, owner: string, name: string, rows: seq<Row>)
    requires IsAnswer(store, owner, name, rows) && |rows| > 0
    ensures rows[0] in Matching(store, owner, name)
    ensures forall r :: r in Matching(store, owner, name) ==> r.createdAt <= rows[0].createdAt
  {
    assert rows[0] in multiset(rows);
    forall r | r in Matching(store, owner, name) ensures r.createdAt <= rows[0].createdAt {
      assert r in multiset(Matching(store, owner, name));
      assert r in multiset(rows);
      var i :| 0 <= i < |rows| && rows[i] == r;
    }
  }

  /** `value || ''`: a missing field shows as the empty string. */
  function FormText(v: Option<string>): (s: string)
    ensures v.Some? ==> s == v.value
    ensures v.None? ==> s == ""
  {
    v.GetOr("")
  }

  /** `s || null` on a string. */
  function OrNull(s: string): (r: Option<string>)
    ensures r.None? <==> s == ""
    ensures r.Some? ==> r.value == s
  {
    if s == "" then None else Some(s)
  }

  /** Values as a save writes them: the name trimmed, event and location
      trimmed or null, the date non-empty or null. */
  predicate Normalised(f: Fields) {
    && IsTrimmed(f.name, Js)
    && (f.event.Some? ==> f.event.value != "" && IsTrimmed(f.event.value, Js))
    && (f.location.Some? ==> f.location.value != "" && IsTrimmed(f.location.value, Js))
    && (f.date.Some? ==> f.date.value != "")
  }

  /** The update payload of `handleSave` built from the form. The date is
      not trimmed: a blank-but-not-empty date is written as it is. */
  function Payload(name: string, event: string, location: string, date: string): (f: Fields)
    ensures Normalised(f)
    ensures f.name == Trim(name, Js)
    ensures f.event.None? <==> AllIn(event, Js)
    ensures f.event.Some? ==> f.event.value == Trim(event, Js)
    ensures f.location.None? <==> AllIn(location, Js)
    ensures f.location.Some? ==> f.location.value == Trim(location, Js)
    ensures f.date.None? <==> date == ""
    ensures f.date.Some? ==> f.date.value == date
  {
    TrimEmptyIff(event, Js);
    TrimEmptyIff(location, Js);
    Fields(Trim(name, Js),
           OrNull(Trim(event, Js)),
           OrNull(Trim(location, Js)),
           OrNull(date))
  }

  function FieldsOf(r: Row): Fields {
    Fields(r.name, r.event, r.location, r.date)
  }

  /** Loading a record whose stored values are already normalised into the
      form and saving without edits writes back exactly those values. */
  lemma {:induction false} SaveWithoutEditsKeepsRow(r: Row)
    requires Normalised(FieldsOf(r))
    ensures Payload(r.name, FormText(r.event), FormText(r.location), FormText(r.date)) == FieldsOf(r)
  {
    var f := Payload(r.name, FormText(r.event), FormText(r.location), FormText(r.date));
    TrimOfTrimmed(r.name, Js);
    TrimOfTrimmed(FormText(r.event), Js);
    TrimOfTrimmed(FormText(r.location), Js);
    assert f.name == r.name;
    assert f.event == r.event;
    assert f.location == r.location;
    assert f.date == r.date;
  }

  /** The store after `update(fields).eq('id', id)`: only the row with that id
      changes, and only in the four written columns. */
  function UpdateRow(store: map<Id, Row>, id: Id, f: Fields): (s: map<Id, Row>)
    ensures s.Keys == store.Keys
    ensures forall k :: k in store && k != id ==> s[k] == store[k]
    ensures id in store ==>
      && FieldsOf(s[id]) == f
      && s[id].id == store[id].id && s[id].ownerId == store[id].ownerId
      && s[id].photoUrl == store[id].photoUrl && s[id].createdAt == store[id].createdAt
  {
    if id in store
    then store[id := store[id].(name := f.name, event := f.event, location := f.location, date := f.date)]
    else store
  }

  /** The store after `delete().eq('id', id)`: that row is gone, every other
      row is untouched. */
  function DeleteRow(store: map<Id, Row>, id: Id): (s: map<Id, Row>)
    ensures s.Keys == store.Keys - {id}
    ensures forall k :: k in s ==> s[k] == store[k]
  {
    store - {id}
  }

  /** The gallery is shown when the profile has more than one record. */
  predicate GalleryShown(records: seq<Row>) {
    |records| > 1
  }

  /** The delete control is shown when a record is selected and the profile
      has more than one record. */
  predicate DeleteShown(selected: Option<Row>, records: seq<Row>) {
    selected.Some? && |records| > 1
  }

  /** Whenever the delete control is shown over a list that is a current
      answer of the store, deleting the selected record leaves the profile
      with a record. */
  lemma LastPhotoCannotBeDeleted(store: map<Id, Row>, owner: string, name: string, rows: seq<Row>, selected: Option<Row>)
    requires WellKeyed(store) && IsAnswer(store, owner, name, rows)
    requires DeleteShown(selected, rows)
    ensures Matching(DeleteRow(store, selected.value.id), owner, name) != {}
  {
    var m := Matching(store, owner, name);
    assert rows == [rows[0], rows[1]] + rows[2..];
    assert rows[0] in multiset(rows) && rows[1] in multiset(rows);
    if rows[0] == rows[1] {
      assert false;
    }
    assert rows[0] in multiset(m) && rows[1] in multiset(m);
    assert rows[0] in m && rows[1] in m;
    var k0 :| k0 in store && store[k0] == rows[0] && rows[0].ownerId == owner && rows[0].name == name;
    var k1 :| k1 in store && store[k1] == rows[1] && rows[1].ownerId == owner && rows[1].name == name;
    var keep := if k0 != selected.value.id then k0 else k1;
    assert keep in DeleteRow(store, selected.value.id);
    assert store[keep] in Matching(DeleteRow(store, selected.value.id), owner, name);
  }

  /** The filter the corrected delete adds: the rows whose id differs from
      `id`, in order. The source only reloads (line 136 of the screen). */
  function WithoutId(rows: seq<Row>, id: Id): seq<Row> {
    if rows == [] then []
    else (if rows[0].id == id then [] else [rows[0]]) + WithoutId(rows[1..], id)
  }

  /** The filter drops every row with that id and keeps every other row as
      often as it was. */
  lemma {:induction false} WithoutIdCounts(rows: seq<Row>, id: Id)
    ensures forall x :: multiset(WithoutId(rows, id))[x] == if x.id == id then 0 else multiset(rows)[x]
  {
    if rows != [] {
      WithoutIdCounts(rows[1..], id);
      assert rows == [rows[0]] + rows[1..];
    }
  }

  /** Whatever the filter keeps comes from the input and has another id. */
  lemma {:induction false} WithoutIdKeeps(rows: seq<Row>, id: Id, x: Row)
    requires x in WithoutId(rows, id)
    ensures x in rows && x.id != id
  {
    if rows[0].id == id || x != rows[0] {
      WithoutIdKeeps(rows[1..], id, x);
    }
  }

  /** In rows ordered newest first, the first row is at least as new as any
      later one. */
  lemma HeadIsNewest(rows: seq<Row>, x: Row)
    requires NewestFirst(rows) && |rows| > 0 && x in rows[1..]
    ensures rows[0].createdAt >= x.createdAt
  {
    var k :| 0 <= k < |rows[1..]| && rows[1..][k] == x;
    assert rows[k + 1] == x;
  }

  /** The filter keeps the order of the rows it keeps. */
  lemma {:induction false} WithoutIdKeepsOrder(rows: seq<Row>, id: Id)
    requires NewestFirst(rows)
    ensures NewestFirst(WithoutId(rows, id))
  {
    if rows != [] {
      var rest := WithoutId(rows[1..], id);
      assert NewestFirst(rows[1..]) by {
        forall i, j | 0 <= i < j < |rows[1..]| ensures rows[1..][i].createdAt >= rows[1..][j].createdAt {
          assert rows[1..][i] == rows[i + 1] && rows[1..][j] == rows[j + 1];
        }
      }
      WithoutIdKeepsOrder(rows[1..], id);
      if rows[0].id != id {
        var r := [rows[0]] + rest;
        assert WithoutId(rows, id) == r;
        forall i, j | 0 <= i < j < |r| ensures r[i].createdAt >= r[j].createdAt {
          assert r[j] == rest[j - 1];
          if i == 0 {
            WithoutIdKeeps(rows[1..], id, rest[j - 1]);
            HeadIsNewest(rows, rest[j - 1]);
          } else {
            assert r[i] == rest[i - 1];
          }
        }
      } else {
        assert WithoutId(rows, id) == [] + rest;
      }
    }
  }

  /** Deleting a record removes from the profile's records exactly the rows
      with that id. */
  lemma MatchingAfterDelete(store: map<Id, Row>, owner: string, name: string, id: Id)
    requires WellKeyed(store)
    ensures forall x :: x in Matching(DeleteRow(store, id), owner, name) <==>
      x in Matching(store, owner, name) && x.id != id
  {
    forall x | x in Matching(store, owner, name) && x.id != id
      ensures x in Matching(DeleteRow(store, id), owner, name)
    {
      var k :| k in store && store[k] == x && x.ownerId == owner && x.name == name;
      assert k in DeleteRow(store, id);
    }
  }

  /** Dropping a deleted record from a current answer leaves a current answer
      for the store without that record. */
  lemma PruneKeepsAnswer(store: map<Id, Row>, owner: string, name: string, rows: seq<Row>, id: Id)
    requires WellKeyed(store) && IsAnswer(store, owner, name, rows)
    ensures WellKeyed(DeleteRow(store, id))
    ensures IsAnswer(DeleteRow(store, id), owner, name, WithoutId(rows, id))
  {
    WithoutIdKeepsOrder(rows, id);
    WithoutIdCounts(rows, id);
    MatchingAfterDelete(store, owner, name, id);
    var m := Matching(store, owner, name);
    var m' := Matching(DeleteRow(store, id), owner, name);
    var kept := WithoutId(rows, id);
    forall x: Row ensures multiset(kept)[x] == multiset(m')[x] {
      assert multiset(rows)[x] == multiset(m)[x];
    }
    assert multiset(kept) == multiset(m');
  }

  /** `rows` is empty or a current answer of `store` for `owner`'s records
      named `name`, and the store keys every row by its id. */
  ghost predicate ShowsCurrent(store: map<Id, Row>, owner: Option<string>, name: string, rows: seq<Row>) {
    && WellKeyed(store)
    && (rows == [] || (owner.Some? && IsAnswer(store, owner.value, name, rows)))
  }

  /** Deleting a record and dropping it from the shown list keeps the list
      current. */
  lemma DeleteKeepsCurrent(store: map<Id, Row>, owner: string, name: string, rows: seq<Row>, id: Id)
    requires ShowsCurrent(store, Some(owner), name, rows)
    ensures ShowsCurrent(DeleteRow(store, id), Some(owner), name, WithoutId(rows, id))
  {
    if rows != [] {
      PruneKeepsAnswer(store, owner, name, rows, id);
    }
  }

  /** The three history lists of the screen. */
  datatype Column = Dates | Locations | Events

  function ValueOf(r: Row, c: Column): Option<string> {
    match c
    case Dates => r.date
    case Locations => r.location
    case Events => r.event
  }

  /** `.filter(Boolean)` on a list of optional strings: null and the empty
      string are dropped. */
  function Compact(vs: seq<Option<string>>): (r: seq<string>)
    ensures |r| <= |vs|
    ensures forall x :: x in r <==> x != "" && Some(x) in vs
  {
    if vs == [] then []
    else
      var head := if vs[0].Some? && vs[0].value != "" then [vs[0].value] else [];
      assert forall v :: v in vs <==> v == vs[0] || v in vs[1..];
      head + Compact(vs[1..])
  }

  /** Filtering keeps order: it distributes over concatenation. */
  lemma {:induction false} CompactAppend(a: seq<Option<string>>, b: seq<Option<string>>)
    ensures Compact(a + b) == Compact(a) + Compact(b)
  {
    if a == [] {
      assert a + b == b;
    } else {
      assert (a + b)[0] == a[0];
      assert (a + b)[1..] == a[1..] + b;
      CompactAppend(a[1..], b);
    }
  }

  /** `records.slice(0, 3).map(r => r.<column>).filter(Boolean)`. */
  function Recent(records: seq<Row>, c: Column): (r: seq<string>)
    ensures |r| <= 3 && |r| <= |records|
    ensures forall x :: x in r <==>
      x != "" && exists i :: 0 <= i < |records| && i < 3 && ValueOf(records[i], c) == Some(x)
  {
    var n := if |records| < 3 then |records| else 3;
    var vs := seq(n, i requires 0 <= i < n => ValueOf(records[i], c));
    assert forall i :: 0 <= i < n ==> vs[i] == ValueOf(records[i], c);
    Compact(vs)
  }

  /** Only the three newest records feed the history. */
  lemma {:induction false} RecentOfFirstThree(records: seq<Row>, c: Column)
    requires |records| > 3
    ensures Recent(records, c) == Recent(records[..3], c)
  {
    var vs := seq(3, i requires 0 <= i < 3 => ValueOf(records[i], c));
    var ws := seq(3, i requires 0 <= i < 3 => ValueOf(records[..3][i], c));
    assert vs == ws;
  }

  /** The history lists follow the records' order, newest first, and keep
      repeated values: the newest record's value, when present and
      non-empty, comes first, followed by the history of the rest. */
  lemma {:induction false} RecentNewestFirst(x: Row, rest: seq<Row>, c: Column)
    requires |rest| < 3
    ensures Recent([x] + rest, c) ==
      (if ValueOf(x, c).Some? && ValueOf(x, c).value != "" then [ValueOf(x, c).value] else []) + Recent(rest, c)
  {
    var records := [x] + rest;
    var vs := seq(|records|, i requires 0 <= i < |records| => ValueOf(records[i], c));
    var tail := seq(|rest|, i requires 0 <= i < |rest| => ValueOf(rest[i], c));
    assert vs == [ValueOf(x, c)] + tail;
    CompactAppend([ValueOf(x, c)], tail);
    assert [ValueOf(x, c)][1..] == [];
  }

  /** The edit screen for the profile named `profileName`. `store` is the
      record store as this screen sees it; `lastAlert` is the last alert shown
      and `leftScreen` whether it navigated back. */
  class EditProfileScreen {
    const profileName: string
    const user: Option<string>          // id of the signed-in user
    var store: map<Id, Row>
    var records: seq<Row>
    var loading: bool
    var saving: bool
    var selected: Option<Row>
    var name: string
    var event: string
    var location: string
    var date: string
    var lastAlert: Option<Alert>
    var leftScreen: bool

    /** While the screen is shown, the list it shows is empty or a current
        answer of the store for this profile, and the store keys every row
        by its id. */
    ghost predicate Current()
      reads this
    {
      leftScreen || ShowsCurrent(store, user, profileName, records)
    }

    /** The initial state of the component. */
    constructor (profileName: string, user: Option<string>, store: map<Id, Row>)
      ensures this.profileName == profileName && this.user == user && this.store == store
      ensures records == [] && loading && !saving && selected.None?
      ensures name == profileName && event == "" && location == "" && date == ""
      ensures lastAlert.None? && !leftScreen
      ensures WellKeyed(store) ==> Current()
    {
      this.profileName, this.user, this.store := profileName, user, store;
      records, loading, saving, selected := [], true, false, None;
      name, event, location, date := profileName, "", "", "";
      lastAlert, leftScreen := None, false;
    }

    /** The state `loadRecords` leaves behind for the query outcome `fetched`,
        where `alertBefore` is the alert shown when it started and `kept` the
        list it keeps when the query fails. */
    twostate predicate LoadedFrom(fetched: Fetch, alertBefore: Option<Alert>, kept: seq<Row>)
      reads this
    {
      && !loading
      && match fetched
         case FetchFailed =>
           && records == kept && selected == old(selected)
           && event == old(event) && location == old(location) && date == old(date)
           && lastAlert == Some(LoadFailed)
         case Fetched(rows) =>
           && records == rows && lastAlert == alertBefore
           && if rows != [] then
                && selected == Some(rows[0])
                && event == FormText(rows[0].event)
                && location == FormText(rows[0].location)
                && date == FormText(rows[0].date)
              else
                && selected == old(selected)
                && event == old(event) && location == old(location) && date == old(date)
    }

    /** `loadRecords`: keeps the query answer, selects its first (newest)
        record and fills the form from it; on failure alerts and keeps the
        previous state. `loading` ends false either way. */
    method LoadRecords(fetched: Fetch)
      requires user.Some?
      requires fetched.Fetched? ==> IsAnswer(store, user.value, profileName, fetched.rows)
      modifies this`records, this`selected, this`event, this`location, this`date, this`loading, this`lastAlert
      ensures LoadedFrom(fetched, old(lastAlert), old(records))
      ensures old(Current()) ==> Current()
    {
      loading := true;
      match fetched {
        case FetchFailed =>
          lastAlert := Some(LoadFailed);
        case Fetched(rows) =>
          records := rows;
          if |rows| > 0 {
            var mostRecent := rows[0];
            selected := Some(mostRecent);
            event := FormText(mostRecent.event);
            location := FormText(mostRecent.location);
            date := FormText(mostRecent.date);
          }
      }
      loading := false;
    }

    /** The mount effect: records are loaded only when a user is signed in;
        otherwise the screen stays in its loading state. */
    method Mount(fetched: Fetch)
      requires user.Some? && fetched.Fetched? ==> IsAnswer(store, user.value, profileName, fetched.rows)
      modifies this`records, this`selected, this`event, this`location, this`date, this`loading, this`lastAlert
      ensures user.None? ==> unchanged(this)
      ensures user.Some? ==> LoadedFrom(fetched, old(lastAlert), old(records))
      ensures old(Current()) ==> Current()
    {
      if user.Some? {
        LoadRecords(fetched);
      }
    }

    /** Tapping a photo of the gallery, which is shown only for more than one
        record, selects it; the form is not refilled. */
    method SelectPhoto(r: Row)
      requires GalleryShown(records) && r in records
      modifies this`selected
      ensures selected == Some(r)
      ensures old(Current()) ==> Current()
    {
      selected := Some(r);
    }

    method SetName(s: string)
      modifies this`name
      ensures name == s
      ensures old(Current()) ==> Current()
    {
      name := s;
    }

    method SetEvent(s: string)
      modifies this`event
      ensures event == s
      ensures old(Current()) ==> Current()
    {
      event := s;
    }

    method SetLocation(s: string)
      modifies this`location
      ensures location == s
      ensures old(Current()) ==> Current()
    {
      location := s;
    }

    method SetDate(s: string)
      modifies this`date
      ensures date == s
      ensures old(Current()) ==> Current()
    {
      date := s;
    }

    /** `handleSave`: without a selected record it alerts and writes nothing;
        otherwise it writes the normalised form to the selected record's id
        only, alerts the outcome, goes back on success, and `saving` ends
        false either way. `updateFails` is whether the store rejected the
        update. */
    method HandleSave(updateFails: bool)
      modifies this`store, this`saving, this`lastAlert, this`leftScreen
      ensures selected.None? ==>
        && store == old(store) && saving == old(saving)
        && lastAlert == Some(NoPhotoSelected) && leftScreen == old(leftScreen)
      ensures selected.Some? ==> !saving
      ensures selected.Some? && updateFails ==>
        store == old(store) && lastAlert == Some(SaveFailed) && leftScreen == old(leftScreen)
      ensures selected.Some? && !updateFails ==>
        && store == UpdateRow(old(store), selected.value.id, Payload(old(name), old(event), old(location), old(date)))
        && lastAlert == Some(Saved) && leftScreen
      ensures old(Current()) ==> Current()
    {
      if selected.None? {
        lastAlert := Some(NoPhotoSelected);
        return;
      }
      var fields := Payload(name, event, location, date);
      saving := true;
      if updateFails {
        lastAlert := Some(SaveFailed);
      } else {
        store := UpdateRow(store, selected.value.id, fields);
        lastAlert := Some(Saved);
        leftScreen := true;
      }
      saving := false;
    }

    /** `handleDelete(recordId)` as written: after confirmation, removes
        exactly that record from the store and reloads with `reload`; on a
        store error it alerts and changes nothing else. Cancelling changes
        nothing. A failed reload keeps the list that still shows the deleted
        record. */
    method HandleDeleteAsWritten(recordId: Id, confirmed: bool, deleteFails: bool, reload: Fetch)
      requires user.Some?
      requires confirmed && !deleteFails && reload.Fetched? ==>
        IsAnswer(DeleteRow(store, recordId), user.value, profileName, reload.rows)
      modifies this`store, this`records, this`selected, this`event, this`location, this`date,
               this`loading, this`lastAlert
      ensures !confirmed ==> unchanged(this)
      ensures confirmed && deleteFails ==>
        && store == old(store) && records == old(records) && selected == old(selected)
        && event == old(event) && location == old(location) && date == old(date)
        && loading == old(loading) && lastAlert == Some(DeleteFailed)
      ensures confirmed && !deleteFails ==>
        store == DeleteRow(old(store), recordId) && LoadedFrom(reload, Some(Deleted), old(records))
    {
      if !confirmed {
        return;
      }
      if deleteFails {
        lastAlert := Some(DeleteFailed);
        return;
      }
      store := DeleteRow(store, recordId);
      lastAlert := Some(Deleted);
      LoadRecords(reload);
    }

    /** `handleDelete(recordId)` with the deleted record also dropped from the
        shown list before the reload, so that a failed reload cannot leave it
        on screen. Otherwise as written. It keeps the list current, and
        through the delete control shown for the selected record it never
        removes a profile's last record. */
    method HandleDelete(recordId: Id, confirmed: bool, deleteFails: bool, reload: Fetch)
      requires user.Some?
      requires confirmed && !deleteFails && reload.Fetched? ==>
        IsAnswer(DeleteRow(store, recordId), user.value, profileName, reload.rows)
      modifies this`store, this`records, this`selected, this`event, this`location, this`date,
               this`loading, this`lastAlert
      ensures !confirmed ==> unchanged(this)
      ensures confirmed && deleteFails ==>
        && store == old(store) && records == old(records) && selected == old(selected)
        && event == old(event) && location == old(location) && date == old(date)
        && loading == old(loading) && lastAlert == Some(DeleteFailed)
      ensures confirmed && !deleteFails ==>
        && store == DeleteRow(old(store), recordId)
        && LoadedFrom(reload, Some(Deleted), WithoutId(old(records), recordId))
      ensures old(Current()) ==> Current()
      ensures old(Current() && !leftScreen && DeleteShown(selected, records)) && recordId == old(selected).value.id ==>
        Matching(store, user.value, profileName) != {}
    {
      if !leftScreen && DeleteShown(selected, records) && Current() {
        SelectedIsNewest(store, user.value, profileName, records);
      }
      if !confirmed {
        return;
      }
      if deleteFails {
        lastAlert := Some(DeleteFailed);
        return;
      }
      if !leftScreen && Current() {
        DeleteKeepsCurrent(store, user.value, profileName, records, recordId);
        if DeleteShown(selected, records) && recordId == selected.value.id {
          LastPhotoCannotBeDeleted(store, user.value, profileName, records, selected);
        }
      }
      store := DeleteRow(store, recordId);
      records := WithoutId(records, recordId);
      lastAlert := Some(Deleted);
      LoadRecords(reload);
    }
  }

  /** The delete as written, on a profile with two records whose reloads
      fail: the first delete leaves both records listed, so the control stays
      shown for the second, and deleting it leaves the profile with none. */
  method StaleListDeletesLastPhoto() returns (shown: bool, remaining: set<Row>)
    ensures shown && remaining == {}
  {
    var a := Row(1, "u", "Ann", "a.jpg", None, None, None, 2);
    var b := Row(2, "u", "Ann", "b.jpg", None, None, None, 1);
    var store := map[1 := a, 2 := b];
    assert Matching(store, "u", "Ann") == {a, b} by {
      assert store[1] == a && store[2] == b;
    }
    var screen := new EditProfileScreen("Ann", Some("u"), store);
    screen.Mount(Fetched([a, b]));
    screen.HandleDeleteAsWritten(1, true, false, FetchFailed);
    screen.SelectPhoto(b);
    shown := DeleteShown(screen.selected, screen.records);
    screen.HandleDeleteAsWritten(2, true, false, FetchFailed);
    assert screen.store == map[];
    remaining := Matching(screen.store, "u", "Ann");
  }
}

/** Client registration and removal, and meter-reading entry: the state
    changes behind `add_client`, `remove_client` and `add_reading`. */
module Registry {
  import opened Dates
  import opened Validation
  import opened Records

  datatype AddOutcome = Added(id: int) | InvalidPhone | DuplicateMeter

  datatype RemoveOutcome = NotFound | Cancelled | Removed

  /** The largest id in `clients`, 0 when there is none. */
  function MaxId(clients: seq<Client>): (m: int)
    ensures forall i :: 0 <= i < |clients| ==> clients[i].id <= m
    ensures |clients| > 0 ==> exists i :: 0 <= i < |clients| && clients[i].id == m
  {
    if |clients| == 0 then
      0
    else
      var rest := MaxId(clients[1..]);
      if |clients| == 1 || clients[0].id >= rest then clients[0].id else rest
  }

  /** The id AUTOINCREMENT gives a new client: one more than both the
      largest id ever handed out and the largest id in the table. */
  function NextClientId(s: Store): (id: int)
    ensures id > s.clientSeq
    ensures !HasClient(s.clients, id)
  {
    var m := MaxId(s.clients);
    1 + (if s.clientSeq >= m then s.clientSeq else m)
  }

  /** Registration. An invalid phone is re-prompted in the program, so no
      insert is attempted; a meter number already present makes the insert
      fail the `UNIQUE` constraint, which rolls the statement back. */
  function AddClient(s: Store, name: string, meter: string, address: string, phone: string): (r: Transition<AddOutcome>)
    ensures r.outcome == InvalidPhone <==> !ValidPhone(phone)
    ensures r.outcome == DuplicateMeter <==> ValidPhone(phone) && MeterTaken(s.clients, meter)
    ensures !r.outcome.Added? ==> r.after == s
    ensures r.outcome.Added? ==>
      && r.after.clients == s.clients + [Client(r.outcome.id, name, meter, address, phone)]
      && !HasClient(s.clients, r.outcome.id)
      && r.outcome.id > s.clientSeq
      && r.after.clientSeq == r.outcome.id
      && r.after.readings == s.readings
      && r.after.bills == s.bills
  {
    if !ValidPhone(phone) then
      Transition(InvalidPhone, s)
    else if MeterTaken(s.clients, meter) then
      Transition(DuplicateMeter, s)
    else
      var id := NextClientId(s);
      Transition(Added(id), s.(clients := s.clients + [Client(id, name, meter, address, phone)], clientSeq := id))
  }

  lemma AddClientKeepsValid(s: Store, name: string, meter: string, address: string, phone: string)
    requires Valid(s)
    ensures Valid(AddClient(s, name, meter, address, phone).after)
  {
    var r := AddClient(s, name, meter, address, phone);
    if r.outcome.Added? {
      var n, cs, id := |s.clients|, r.after.clients, r.outcome.id;
      assert cs[n] == Client(id, name, meter, address, phone);
      assert forall i :: 0 <= i < n ==> cs[i] == s.clients[i];
      forall i | 0 <= i < |cs|
        ensures 0 < cs[i].id <= id && ValidPhone(cs[i].phone)
      {
      }
      forall i, j | 0 <= i < j < |cs|
        ensures cs[i].id < cs[j].id && cs[i].meterNo != cs[j].meterNo
      {
        if j == n {
          assert cs[i].id <= s.clientSeq;
          assert s.clients[i].meterNo != meter;
        }
      }
    }
  }

  /** Registering a second client under a meter number already in use fails
      and leaves the number of clients as it was. */
  lemma SecondRegistrationOfMeterFails(s: Store, meter: string,
                                       name: string, address: string, phone: string,
                                       name': string, address': string, phone': string)
    requires ValidPhone(phone) && ValidPhone(phone')
    requires !MeterTaken(s.clients, meter)
    ensures var first := AddClient(s, name, meter, address, phone);
            var second := AddClient(first.after, name', meter, address', phone');
            && first.outcome.Added?
            && second.outcome == DuplicateMeter
            && |second.after.clients| == |first.after.clients| == |s.clients| + 1
  {
    var first := AddClient(s, name, meter, address, phone);
    assert first.after.clients[|s.clients|].meterNo == meter;
  }

  /** `input(...).lower() == 'y'`. */
  predicate Confirms(answer: string) {
    answer == "y" || answer == "Y"
  }

  /** `DELETE FROM clients WHERE id=?`: every row with that id goes, the
      others stay in order. */
  function WithoutId(clients: seq<Client>, id: int): (r: seq<Client>)
    ensures forall c :: c in r <==> c in clients && c.id != id
    ensures |r| <= |clients|
    ensures HasClient(clients, id) ==> |r| < |clients|
  {
    if |clients| == 0 then
      []
    else
      var rest := WithoutId(clients[1..], id);
      assert clients == [clients[0]] + clients[1..];
      assert HasClient(clients, id) && clients[0].id != id ==> HasClient(clients[1..], id);
      if clients[0].id == id then rest else [clients[0]] + rest
  }

  lemma {:induction false} WithoutAbsentId(clients: seq<Client>, id: int)
    requires !HasClient(clients, id)
    ensures WithoutId(clients, id) == clients
  {
    if |clients| > 0 {
      assert !HasClient(clients[1..], id) by {
        assert forall i :: 0 <= i < |clients| - 1 ==> clients[1..][i] == clients[i + 1];
      }
      WithoutAbsentId(clients[1..], id);
      assert clients == [clients[0]] + clients[1..];
    }
  }

  /** Deleting by `id` decides the first row and recurses on the rest. */
  lemma WithoutIdFirst(clients: seq<Client>, id: int)
    requires |clients| > 0
    ensures clients[0].id == id ==> WithoutId(clients, id) == WithoutId(clients[1..], id)
    ensures clients[0].id != id ==> WithoutId(clients, id) == [clients[0]] + WithoutId(clients[1..], id)
  {
  }

  /** When exactly one row carries `id`, deleting by `id` cuts out exactly
      that row. */
  lemma {:induction false} WithoutUniqueId(clients: seq<Client>, k: int)
    requires 0 <= k < |clients|
    requires forall i :: 0 <= i < |clients| && i != k ==> clients[i].id != clients[k].id
    ensures WithoutId(clients, clients[k].id) == clients[..k] + clients[k + 1..]
  {
    var id := clients[k].id;
    var tail := clients[1..];
    WithoutIdFirst(clients, id);
    if k == 0 {
      assert !HasClient(tail, id) by {
        forall i | 0 <= i < |tail|
          ensures tail[i].id != id
        {
          assert tail[i] == clients[i + 1];
        }
      }
      WithoutAbsentId(tail, id);
      assert WithoutId(clients, id) == tail;
      assert clients[..0] + clients[1..] == tail;
    } else {
      assert tail[k - 1] == clients[k];
      assert forall i :: 0 <= i < |tail| && i != k - 1 ==> tail[i].id != tail[k - 1].id by {
        forall i | 0 <= i < |tail| && i != k - 1
          ensures tail[i].id != tail[k - 1].id
        {
          assert tail[i] == clients[i + 1];
        }
      }
      WithoutUniqueId(tail, k - 1);
      assert clients[0].id != id;
      assert WithoutId(clients, id) == [clients[0]] + (tail[..k - 1] + tail[k..]);
      SpliceAfterFirst(clients, k);
    }
  }

  /** Cutting position `k > 0` out of a sequence keeps its first element in
      front of the cut tail. */
  lemma SpliceAfterFirst<T>(s: seq<T>, k: int)
    requires 0 < k < |s|
    ensures s[..k] + s[k + 1..] == [s[0]] + (s[1..][..k - 1] + s[1..][k..])
  {
    assert s[1..][..k - 1] == s[1..k];
    assert s[1..][k..] == s[k + 1..];
    assert s[..k] == [s[0]] + s[1..k];
  }

  /** `remove_client` once the typed id has parsed as an integer. */
  function RemoveClient(s: Store, id: int, answer: string): (r: Transition<RemoveOutcome>)
    ensures r.outcome == NotFound <==> !HasClient(s.clients, id)
    ensures r.outcome == Cancelled <==> HasClient(s.clients, id) && !Confirms(answer)
    ensures !r.outcome.Removed? ==> r.after == s
    ensures r.outcome.Removed? ==>
      && (forall c :: c in r.after.clients <==> c in s.clients && c.id != id)
      && |r.after.clients| < |s.clients|
      && r.after.readings == s.readings
      && r.after.bills == s.bills
      && r.after.clientSeq == s.clientSeq
  {
    if !HasClient(s.clients, id) then
      Transition(NotFound, s)
    else if !Confirms(answer) then
      Transition(Cancelled, s)
    else
      Transition(Removed, s.(clients := WithoutId(s.clients, id)))
  }

  /** In a valid database a confirmed removal deletes exactly the one client
      with that id and keeps the others in order. */
  lemma RemoveClientDeletesExactlyOne(s: Store, k: int, answer: string)
    requires Valid(s)
    requires 0 <= k < |s.clients|
    requires Confirms(answer)
    ensures RemoveClient(s, s.clients[k].id, answer).after.clients == s.clients[..k] + s.clients[k + 1..]
  {
    forall i | 0 <= i < |s.clients| && i != k
      ensures s.clients[i].id != s.clients[k].id
    {
      if i < k {
        assert s.clients[i].id < s.clients[k].id;
      } else {
        assert s.clients[k].id < s.clients[i].id;
      }
    }
    WithoutUniqueId(s.clients, k);
  }

  lemma RemoveClientKeepsValid(s: Store, id: int, answer: string)
    requires Valid(s)
    ensures Valid(RemoveClient(s, id, answer).after)
  {
    var r := RemoveClient(s, id, answer);
    if r.outcome.Removed? {
      var k :| 0 <= k < |s.clients| && s.clients[k].id == id;
      RemoveClientDeletesExactlyOne(s, k, answer);
      DroppingClientKeepsValid(s, k);
    }
  }

  lemma DroppingClientKeepsValid(s: Store, k: int)
    requires Valid(s)
    requires 0 <= k < |s.clients|
    ensures Valid(s.(clients := s.clients[..k] + s.clients[k + 1..]))
  {
    var cs := s.clients[..k] + s.clients[k + 1..];
    forall i | 0 <= i < |cs|
      ensures 0 < cs[i].id <= s.clientSeq && ValidPhone(cs[i].phone)
    {
      assert cs[i] == s.clients[if i < k then i else i + 1];
    }
    forall i, j | 0 <= i < j < |cs|
      ensures cs[i].id < cs[j].id && cs[i].meterNo != cs[j].meterNo
    {
      // position `i` of `cs` is position `i'` of `s.clients`
      var i', j' := if i < k then i else i + 1, if j < k then j else j + 1;
      assert cs[i] == s.clients[i'] && cs[j] == s.clients[j'] && i' < j';
    }
  }

  /** AUTOINCREMENT never hands out an id again: the client registered
      after a removal gets an id above the removed one. */
  lemma RemovedIdIsNotReused(s: Store, k: int, answer: string,
                             name: string, meter: string, address: string, phone: string)
    requires Valid(s)
    requires 0 <= k < |s.clients|
    ensures var removed := RemoveClient(s, s.clients[k].id, answer).after;
            var r := AddClient(removed, name, meter, address, phone);
            r.outcome.Added? ==> r.outcome.id > s.clients[k].id
  {
  }

  /** `add_reading`: the reading is stored whatever the client id and the
      value, so a reading for an id no client has, or with a negative value,
      is accepted all the same. */
  function AddReading(s: Store, clientId: int, date: Date, value: real): (r: Store)
    ensures r.readings == s.readings + [Reading(clientId, date, value)]
    ensures r.clients == s.clients && r.bills == s.bills && r.clientSeq == s.clientSeq
  {
    s.(readings := s.readings + [Reading(clientId, date, value)])
  }

  lemma AddReadingKeepsValid(s: Store, clientId: int, date: Date, value: real)
    requires Valid(s)
    ensures Valid(AddReading(s, clientId, date, value))
  {
  }
}

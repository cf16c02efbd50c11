/** The three tables of the billing database, held as sequences of rows in
    insertion (rowid) order, and the invariant every reachable database
    keeps. */
module Records {
  import opened Dates
  import opened Validation

  datatype Client = Client(id: int, name: string, meterNo: string, address: string, phone: string)

  /** `clientId` is whatever id was typed: nothing ties it to an existing
      client. */
  datatype Reading = Reading(clientId: int, date: Date, value: real)

  datatype Bill = Bill(clientId: int, startDate: Date, endDate: Date, units: real, amount: real, status: string)

  /** `clientSeq` is the `sqlite_sequence` entry of the `clients` table: the
      largest id AUTOINCREMENT has handed out, 0 before the first insert. */
  datatype Store = Store(clients: seq<Client>, readings: seq<Reading>, bills: seq<Bill>, clientSeq: int)

  /** What an operation reports, and the database after it. */
  datatype Transition<O> = Transition(outcome: O, after: Store)

  /** The freshly created database. */
  const EmptyStore := Store([], [], [], 0)

  predicate HasClient(clients: seq<Client>, id: int) {
    exists i :: 0 <= i < |clients| && clients[i].id == id
  }

  predicate MeterTaken(clients: seq<Client>, meter: string) {
    exists i :: 0 <= i < |clients| && clients[i].meterNo == meter
  }

  /** What the schema and the registration code keep true of `clients`:
      ids are positive and increase in insertion order (so they are
      distinct), none exceeds `sqlite_sequence`, meter numbers are `UNIQUE`,
      and every phone passed validation. Readings and bills carry no
      invariant: their client ids are never checked. */
  ghost predicate Valid(s: Store) {
    && (forall i, j :: 0 <= i < j < |s.clients| ==> s.clients[i].id < s.clients[j].id)
    && (forall i :: 0 <= i < |s.clients| ==> 0 < s.clients[i].id <= s.clientSeq)
    && (forall i, j :: 0 <= i < j < |s.clients| ==> s.clients[i].meterNo != s.clients[j].meterNo)
    && (forall i :: 0 <= i < |s.clients| ==> ValidPhone(s.clients[i].phone))
  }

  lemma EmptyStoreIsValid()
    ensures Valid(EmptyStore)
  {
  }
}

/** The four per-user profile records (personal, GST, documents, bank) and the POST handler
    each of them has (backend/project/myapp/views.py): a user's second submission updates the
    record they already have instead of creating another one. */
module Profiles {
  import opened Wrappers
  import opened Http
  import opened Tables

  datatype ProfileKind = Personal | Gst | Documents | Bank {
    /** The fields the kind's model serializer reads and writes; `user` is never one of them. */
    function Fields(): (f: set<string>)
      ensures "user" !in f && |f| >= 2
    {
      match this
      case Personal => {"full_name", "email", "phone_number", "address"}
      case Gst => {"gst_number", "gst_certificate_url"}
      case Documents => {"pan_card_url", "aadhaar_card_url", "supporting_documents_urls"}
      case Bank => {"bank_name", "branch_name", "account_number", "ifsc_code"}
    }
  }

  /** A profile row: the owning user and the serializer's fields. */
  datatype Profile = Profile(user: int, data: map<string, string>)

  /** What the serializer takes from a request body: the kind's fields and nothing else. */
  function Restrict(kind: ProfileKind, input: map<string, string>): (r: map<string, string>)
    ensures r.Keys == input.Keys * kind.Fields()
    ensures forall k :: k in r ==> r[k] == input[k]
  {
    map k | k in input && k in kind.Fields() :: input[k]
  }

  /** A partial update: the fields sent replace the stored ones, the others stay. */
  function Merge(stored: map<string, string>, sent: map<string, string>): (r: map<string, string>)
    ensures r.Keys == stored.Keys + sent.Keys
    ensures forall k :: k in sent ==> r[k] == sent[k]
    ensures forall k :: k in stored && k !in sent ==> r[k] == stored[k]
  {
    stored + sent
  }

  /** `filter(user=request.user)`. */
  function OwnedBy(user: int): Profile -> bool {
    (p: Profile) => p.user == user
  }

  /** Each user has at most one record. */
  ghost predicate OnePerUser(t: Table<Profile>) {
    forall a, b :: a in t.rows && b in t.rows && t.rows[a].user == t.rows[b].user ==> a == b
  }

  datatype ProfileStep = ProfileStep(response: Response, table: Table<Profile>)

  /** `create_personal_details`, `create_gst_details`, `create_documents`,
      `create_bank_details`: the serializer's verdict on the body is an input. With a record
      already present the body is a partial update of it (200); without one a record is created
      (201); an invalid body changes nothing (400). */
  function UpsertStep(t: Table<Profile>, kind: ProfileKind, user: int, input: map<string, string>, valid: bool): (r: ProfileStep)
    requires t.WellFormed()
    ensures r.table.WellFormed()
    ensures !valid ==> r == ProfileStep(Response(BadRequest, ValidationErrors), t)
    ensures valid && t.First(OwnedBy(user)).Some? ==>
      var k := t.First(OwnedBy(user)).value;
      && r.table == t.Put(k, Profile(user, Merge(t.rows[k].data, Restrict(kind, input))))
      && r.response == Response(Ok, Record(r.table.rows[k].data))
    ensures valid && t.First(OwnedBy(user)).None? ==>
      && r.table == t.Insert(Profile(user, Restrict(kind, input)))
      && r.response == Response(CreatedStatus, Record(r.table.rows[t.nextId].data))
    ensures r.response.status == Ok || r.response.status == CreatedStatus ==>
      r.response.body.Record? && exists k :: k in r.table.rows && r.table.rows[k] == Profile(user, r.response.body.fields)
  {
    if !valid then ProfileStep(Response(BadRequest, ValidationErrors), t)
    else
      match t.First(OwnedBy(user))
      case Some(k) =>
        var data := Merge(t.rows[k].data, Restrict(kind, input));
        ProfileStep(Response(Ok, Record(data)), t.Put(k, Profile(user, data)))
      case None =>
        var data := Restrict(kind, input);
        ProfileStep(Response(CreatedStatus, Record(data)), t.Insert(Profile(user, data)))
  }

  /** The handlers never give a user a second record. */
  lemma {:induction false} UpsertKeepsOnePerUser(t: Table<Profile>, kind: ProfileKind, user: int,
                                                 input: map<string, string>, valid: bool)
    requires t.WellFormed() && OnePerUser(t)
    ensures OnePerUser(UpsertStep(t, kind, user, input, valid).table)
  {
    if valid && t.First(OwnedBy(user)).None? {
      assert forall j :: j in t.rows ==> !OwnedBy(user)(t.rows[j]);
    }
  }

  /** A record is created exactly when the user had none; other users' records never change. */
  lemma CreatedIffNoRecord(t: Table<Profile>, kind: ProfileKind, user: int, input: map<string, string>)
    requires t.WellFormed()
    ensures var r := UpsertStep(t, kind, user, input, true);
      && (r.response.status == CreatedStatus <==> forall k :: k in t.rows ==> t.rows[k].user != user)
      && (forall k :: k in t.rows && t.rows[k].user != user ==> k in r.table.rows && r.table.rows[k] == t.rows[k])
  {
    var r := UpsertStep(t, kind, user, input, true);
    if t.First(OwnedBy(user)).Some? {
      assert OwnedBy(user)(t.rows[t.First(OwnedBy(user)).value]);
    }
  }

  /** Sending the same valid body twice leaves the table as sending it once, the second time
      answering 200 with the same record. */
  lemma {:induction false} UpsertTwiceIsUpsertOnce(t: Table<Profile>, kind: ProfileKind, user: int, input: map<string, string>)
    requires t.WellFormed()
    ensures var once := UpsertStep(t, kind, user, input, true);
      var twice := UpsertStep(once.table, kind, user, input, true);
      twice.table == once.table && twice.response == Response(Ok, once.response.body)
  {
    var once := UpsertStep(t, kind, user, input, true);
    var sent := Restrict(kind, input);
    var found := t.First(OwnedBy(user));
    var k: nat := if found.Some? then found.value else t.nextId;
    assert k in once.table.rows && once.table.rows[k].user == user;
    assert forall j :: j in once.table.rows && j < k ==> j in t.rows && once.table.rows[j] == t.rows[j];
    var again := once.table.First(OwnedBy(user));
    assert again == Some(k) by {
      assert OwnedBy(user)(once.table.rows[k]);
      assert again.Some? && OwnedBy(user)(once.table.rows[again.value]);
    }
    var data := once.table.rows[k].data;
    assert Merge(data, sent) == data by {
      assert data == (if found.Some? then Merge(t.rows[k].data, sent) else sent);
    }
  }

  /** One profile table with its POST handler; the rows are replaced as the handler saves. */
  class ProfileTable {
    const kind: ProfileKind
    var table: Table<Profile>

    constructor(kind: ProfileKind)
      ensures this.kind == kind && table == Empty()
    {
      this.kind := kind;
      table := Empty();
    }

    method Upsert(user: int, input: map<string, string>, valid: bool) returns (response: Response)
      requires table.WellFormed()
      modifies this
      ensures ProfileStep(response, table) == UpsertStep(old(table), kind, user, input, valid)
    {
      var existing := table.First(OwnedBy(user));
      if !valid {
        return Response(BadRequest, ValidationErrors);
      }
      var sent := Restrict(kind, input);
      if existing.Some? {
        var record := table.rows[existing.value];
        var data := Merge(record.data, sent);
        table := table.Put(existing.value, Profile(user, data));
        response := Response(Ok, Record(data));
      } else {
        table := table.Insert(Profile(user, sent));
        response := Response(CreatedStatus, Record(sent));
      }
    }
  }
}

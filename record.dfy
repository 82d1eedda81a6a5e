/**
  The flat user record that the producer publishes, its twelve field names,
  and the two other lists of those names in the repository: the consumer's
  message schema and the columns of the destination table.
 */
module Record {
  import opened Wrappers
  import opened PyJson

  /**
    One produced record. `id` and `address` are strings the producer builds;
    every other field is copied from the source object without conversion,
    so it holds whatever JSON value the source had there.
   */
  datatype UserRecord = UserRecord(
    id: string,
    firstName: Json,
    lastName: Json,
    gender: Json,
    address: string,
    postCode: Json,
    email: Json,
    username: Json,
    dob: Json,
    registeredDate: Json,
    phone: Json,
    picture: Json)

  datatype Field =
    | Id | FirstName | LastName | Gender | Address | PostCode
    | Email | Username | Dob | RegisteredDate | Phone | Picture

  /** The dict key, message field and table column name of a field. */
  function Key(f: Field): string {
    match f
    case Id => "id"
    case FirstName => "first_name"
    case LastName => "last_name"
    case Gender => "gender"
    case Address => "address"
    case PostCode => "post_code"
    case Email => "email"
    case Username => "username"
    case Dob => "dob"
    case RegisteredDate => "registered_date"
    case Phone => "phone"
    case Picture => "picture"
  }

  function Value(r: UserRecord, f: Field): Json {
    match f
    case Id => JStr(r.id)
    case FirstName => r.firstName
    case LastName => r.lastName
    case Gender => r.gender
    case Address => JStr(r.address)
    case PostCode => r.postCode
    case Email => r.email
    case Username => r.username
    case Dob => r.dob
    case RegisteredDate => r.registeredDate
    case Phone => r.phone
    case Picture => r.picture
  }

  /** The order in which the producer inserts the fields into its dict. */
  const INSERTION_ORDER: seq<Field> :=
    [Id, FirstName, LastName, Gender, Address, PostCode,
     Email, Username, Dob, RegisteredDate, Phone, Picture]

  /** The keys of the producer's dict, in insertion order. */
  const PRODUCER_KEYS: seq<string> :=
    ["id", "first_name", "last_name", "gender", "address", "post_code",
     "email", "username", "dob", "registered_date", "phone", "picture"]

  /** The fields of the consumer's message schema, in its order. */
  const CONSUMER_SCHEMA: seq<string> :=
    ["id", "first_name", "last_name", "dob", "gender", "address",
     "post_code", "email", "username", "registered_date", "phone", "picture"]

  /** The columns of the destination table, in declaration order. */
  const TABLE_COLUMNS: seq<string> :=
    ["id", "first_name", "last_name", "gender", "dob", "address",
     "post_code", "email", "username", "registered_date", "phone", "picture"]

  predicate Distinct(s: seq<string>) {
    forall i, j :: 0 <= i < j < |s| ==> s[i] != s[j]
  }

  /** The position of a field in the insertion order. */
  function IndexOf(f: Field): (i: nat)
    ensures i < |INSERTION_ORDER| && INSERTION_ORDER[i] == f
  {
    match f
    case Id => 0
    case FirstName => 1
    case LastName => 2
    case Gender => 3
    case Address => 4
    case PostCode => 5
    case Email => 6
    case Username => 7
    case Dob => 8
    case RegisteredDate => 9
    case Phone => 10
    case Picture => 11
  }

  /** In a dict whose keys are distinct, the i-th entry is what its key looks up. */
  lemma GetDistinct(entries: seq<Entry>, i: nat)
    requires i < |entries| && Distinct(Keys(entries))
    ensures Get(JDict(entries), entries[i].key) == Some(entries[i].value)
  {
    forall j | 0 <= j < i ensures entries[j].key != entries[i].key {
      assert Keys(entries)[j] == entries[j].key && Keys(entries)[i] == entries[i].key;
    }
    FindSpec(entries, entries[i].key);
  }

  lemma ProducerKeysDistinct()
    ensures Distinct(PRODUCER_KEYS)
  {
  }

  lemma KeyOrder()
    ensures forall i :: 0 <= i < |INSERTION_ORDER| ==> Key(INSERTION_ORDER[i]) == PRODUCER_KEYS[i]
  {
  }

  /** The entries `key: value` for the given fields, in their order. */
  function EntriesOf(r: UserRecord, fs: seq<Field>): (es: seq<Entry>)
    ensures |es| == |fs|
    ensures forall i :: 0 <= i < |fs| ==> es[i] == Entry(Key(fs[i]), Value(r, fs[i]))
  {
    if fs == [] then [] else [Entry(Key(fs[0]), Value(r, fs[0]))] + EntriesOf(r, fs[1..])
  }

  /**
    The dict the producer builds from a record, one key at a time in
    insertion order: twelve distinct keys.
   */
  function AsDict(r: UserRecord): (d: Json)
    ensures d.JDict? && Keys(d.entries) == PRODUCER_KEYS
  {
    var entries := EntriesOf(r, INSERTION_ORDER);
    KeyOrder();
    assert forall i :: 0 <= i < 12 ==> Keys(entries)[i] == PRODUCER_KEYS[i];
    JDict(entries)
  }

  /** The value a dict holds under a field's name. */
  function Lookup(d: Json, f: Field): Option<Json> {
    Get(d, Key(f))
  }

  /** Each field of the record is what its name looks up in the produced dict. */
  lemma LookupAsDict(r: UserRecord, f: Field)
    ensures Lookup(AsDict(r), f) == Some(Value(r, f))
  {
    var d := AsDict(r);
    ProducerKeysDistinct();
    GetDistinct(d.entries, IndexOf(f));
  }

  /** The string a dict holds under a field's name; None if absent or not a string. */
  function Text(d: Json, f: Field): Option<string> {
    match Lookup(d, f)
    case Some(JStr(s)) => Some(s)
    case _ => None
  }

  /** Reads a record back from a dict by field name; None if a field is absent or mistyped. */
  function RecordOf(d: Json): Option<UserRecord> {
    var id :- Text(d, Id);
    var firstName :- Lookup(d, FirstName);
    var lastName :- Lookup(d, LastName);
    var gender :- Lookup(d, Gender);
    var address :- Text(d, Address);
    var postCode :- Lookup(d, PostCode);
    var email :- Lookup(d, Email);
    var username :- Lookup(d, Username);
    var dob :- Lookup(d, Dob);
    var registeredDate :- Lookup(d, RegisteredDate);
    var phone :- Lookup(d, Phone);
    var picture :- Lookup(d, Picture);
    Some(UserRecord(id, firstName, lastName, gender, address, postCode, email,
                    username, dob, registeredDate, phone, picture))
  }

  /** A dict that holds every field of `r` under its name reads back as `r`. */
  lemma RecordOfFields(d: Json, r: UserRecord)
    requires Text(d, Id) == Some(r.id) && Text(d, Address) == Some(r.address)
    requires Lookup(d, FirstName) == Some(r.firstName) && Lookup(d, LastName) == Some(r.lastName)
    requires Lookup(d, Gender) == Some(r.gender) && Lookup(d, PostCode) == Some(r.postCode)
    requires Lookup(d, Email) == Some(r.email) && Lookup(d, Username) == Some(r.username)
    requires Lookup(d, Dob) == Some(r.dob) && Lookup(d, RegisteredDate) == Some(r.registeredDate)
    requires Lookup(d, Phone) == Some(r.phone) && Lookup(d, Picture) == Some(r.picture)
    ensures RecordOf(d) == Some(r)
  {
  }

  /** Nothing is lost in the dict: reading it back by field name gives the record. */
  lemma RecordOfAsDict(r: UserRecord)
    ensures RecordOf(AsDict(r)) == Some(r)
  {
    LookupAsDict(r, Id);
    LookupAsDict(r, FirstName);
    LookupAsDict(r, LastName);
    LookupAsDict(r, Gender);
    LookupAsDict(r, Address);
    LookupAsDict(r, PostCode);
    LookupAsDict(r, Email);
    LookupAsDict(r, Username);
    LookupAsDict(r, Dob);
    LookupAsDict(r, RegisteredDate);
    LookupAsDict(r, Phone);
    LookupAsDict(r, Picture);
    RecordOfFields(AsDict(r), r);
  }

  /** The consumer's message schema names the twelve produced keys, each once. */
  lemma ConsumerSchemaAgrees()
    ensures |CONSUMER_SCHEMA| == |PRODUCER_KEYS| == 12
    ensures Distinct(PRODUCER_KEYS) && Distinct(CONSUMER_SCHEMA)
    ensures forall k :: k in PRODUCER_KEYS <==> k in CONSUMER_SCHEMA
  {
  }

  /** The destination table's columns are the twelve produced keys, each once. */
  lemma TableColumnsAgree()
    ensures |TABLE_COLUMNS| == |PRODUCER_KEYS| == 12
    ensures Distinct(TABLE_COLUMNS)
    ensures forall k :: k in PRODUCER_KEYS <==> k in TABLE_COLUMNS
  {
  }
}

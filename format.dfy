/**
  The producer's adapter: picking the user object out of the generator's
  response (`get_data`) and projecting it into the flat record
  (`format_data`).
 */
module Format {
  import opened Wrappers
  import opened PyJson
  import opened Record

  /** A lookup that raised; `path` is the source path being read. */
  datatype FormatError = MissingKey(path: seq<string>)

  /** The source paths the projection reads, in the order it reads them. */
  const REQUIRED_PATHS: seq<seq<string>> := [
    ["location"],
    ["name", "first"],
    ["name", "last"],
    ["gender"],
    ["location", "street", "number"],
    ["location", "street", "name"],
    ["location", "city"],
    ["location", "state"],
    ["location", "country"],
    ["location", "postcode"],
    ["email"],
    ["login", "username"],
    ["dob", "date"],
    ["registered", "date"],
    ["phone"],
    ["picture", "medium"]]

  /** Every path the projection reads is present in `res`. */
  predicate WellShaped(res: Json) {
    forall i :: 0 <= i < |REQUIRED_PATHS| ==> At(res, REQUIRED_PATHS[i]).Some?
  }

  /** `paths[i]` is the first of `paths` that is missing from `v`. */
  predicate FirstMissing(v: Json, paths: seq<seq<string>>, i: nat) {
    && i < |paths|
    && At(v, paths[i]).None?
    && forall j :: 0 <= j < i ==> At(v, paths[j]).Some?
  }

  /**
    Reads the paths one after another; the first one that is missing stops
    the reading with an error, as the first raised KeyError or TypeError does.
   */
  function LookupAll(v: Json, paths: seq<seq<string>>): (r: Result<seq<Json>, FormatError>)
    ensures r.Ok? <==> forall i :: 0 <= i < |paths| ==> At(v, paths[i]).Some?
    ensures r.Ok? ==> |r.value| == |paths|
    ensures r.Ok? ==> forall i :: 0 <= i < |paths| ==> At(v, paths[i]) == Some(r.value[i])
    ensures r.Err? ==> exists i: nat :: FirstMissing(v, paths, i) && r.error == MissingKey(paths[i])
  {
    if paths == [] then Ok([])
    else
      match At(v, paths[0])
      case None =>
        assert FirstMissing(v, paths, 0);
        Err(MissingKey(paths[0]))
      case Some(x) =>
        var rest := LookupAll(v, paths[1..]);
        assert forall i :: 1 <= i < |paths| ==> paths[i] == paths[1..][i - 1];
        match rest
        case Err(e) =>
          var k: nat :| FirstMissing(v, paths[1..], k) && e == MissingKey(paths[1..][k]);
          assert FirstMissing(v, paths, k + 1);
          Err(e)
        case Ok(xs) => Ok([x] + xs)
  }

  /**
    `format_data`: projects the generator's nested user object into the flat
    record, stamping it with the identifier `id` supplied for this call.
    Either every field is filled or there is no record at all.
   */
  function FormatData(res: Json, id: string): (r: Result<UserRecord, FormatError>)
    ensures r.Ok? <==> WellShaped(res)
    ensures r.Err? ==> exists i: nat :: FirstMissing(res, REQUIRED_PATHS, i) && r.error == MissingKey(REQUIRED_PATHS[i])
    ensures r.Ok? ==>
      && r.value.id == id
      && Some(r.value.firstName) == At(res, ["name", "first"])
      && Some(r.value.lastName) == At(res, ["name", "last"])
      && Some(r.value.gender) == At(res, ["gender"])
      && Some(r.value.postCode) == At(res, ["location", "postcode"])
      && Some(r.value.email) == At(res, ["email"])
      && Some(r.value.username) == At(res, ["login", "username"])
      && Some(r.value.dob) == At(res, ["dob", "date"])
      && Some(r.value.registeredDate) == At(res, ["registered", "date"])
      && Some(r.value.phone) == At(res, ["phone"])
      && Some(r.value.picture) == At(res, ["picture", "medium"])
    ensures r.Ok? ==>
      r.value.address ==
        Str(At(res, ["location", "street", "number"]).value) + " "
        + Str(At(res, ["location", "street", "name"]).value) + ", "
        + Str(At(res, ["location", "city"]).value) + ", "
        + Str(At(res, ["location", "state"]).value) + ", "
        + Str(At(res, ["location", "country"]).value)
  {
    var vs :- LookupAll(res, REQUIRED_PATHS);
    var number := vs[4];
    var streetName := vs[5];
    var city := vs[6];
    var state := vs[7];
    var country := vs[8];
    Ok(UserRecord(
      id := id,
      firstName := vs[1],
      lastName := vs[2],
      gender := vs[3],
      address := Str(number) + " " + Str(streetName) + ", " + Str(city) + ", " + Str(state) + ", " + Str(country),
      postCode := vs[9],
      email := vs[10],
      username := vs[11],
      dob := vs[12],
      registeredDate := vs[13],
      phone := vs[14],
      picture := vs[15]))
  }

  /** The identifier is the one supplied; everything else depends on the source alone. */
  lemma IdIsSupplied(res: Json, id1: string, id2: string)
    requires FormatData(res, id1).Ok?
    ensures FormatData(res, id2).Ok?
    ensures FormatData(res, id2).value == FormatData(res, id1).value.(id := id2)
  {
  }

  /** Reading the same paths from two values that agree on them gives the same outcome. */
  lemma {:induction false} LookupAllAgree(a: Json, b: Json, paths: seq<seq<string>>)
    requires forall i :: 0 <= i < |paths| ==> At(a, paths[i]) == At(b, paths[i])
    ensures LookupAll(a, paths) == LookupAll(b, paths)
    decreases |paths|
  {
    if paths != [] {
      assert At(a, paths[0]) == At(b, paths[0]);
      assert forall i :: 1 <= i < |paths| ==> paths[i] == paths[1..][i - 1];
      LookupAllAgree(a, b, paths[1..]);
    }
  }

  /** Two sources that agree on every path read give the same record. */
  lemma FormatReadsOnlyRequiredPaths(a: Json, b: Json, id: string)
    requires forall i :: 0 <= i < |REQUIRED_PATHS| ==> At(a, REQUIRED_PATHS[i]) == At(b, REQUIRED_PATHS[i])
    ensures FormatData(a, id) == FormatData(b, id)
  {
    LookupAllAgree(a, b, REQUIRED_PATHS);
  }

  /** A street number given as an int leads the address and reads back from it. */
  lemma AddressLeadsWithStreetNumber(res: Json, id: string, n: int)
    requires FormatData(res, id).Ok?
    requires At(res, ["location", "street", "number"]) == Some(JInt(n))
    ensures var a := FormatData(res, id).value.address;
      var k := |IntToString(n)|;
      && k < |a| && a[..k] == IntToString(n) && a[k] == ' '
      && ParseInt(a[..k]) == Some(n)
  {
    ParseIntToString(n);
    assert Str(JInt(n)) == IntToString(n);
    AddressPrefix(IntToString(n), Str(At(res, ["location", "street", "name"]).value),
                  Str(At(res, ["location", "city"]).value), Str(At(res, ["location", "state"]).value),
                  Str(At(res, ["location", "country"]).value));
  }

  lemma AddressPrefix(number: string, street: string, city: string, state: string, country: string)
    ensures var a := number + " " + street + ", " + city + ", " + state + ", " + country;
      |number| < |a| && a[..|number|] == number && a[|number|] == ' '
  {
    var a := number + " " + street + ", " + city + ", " + state + ", " + country;
    assert a == (number + " ") + (street + ", " + city + ", " + state + ", " + country);
  }

  /**
    `get_data`'s `res["results"][0]` on the decoded response: the first
    element of a non-empty `results` list (for a non-empty string, its
    first character); anything else raises, which is None.
   */
  function FirstResult(response: Json): (r: Option<Json>)
    ensures r.Some? <==> match At(response, ["results"])
                         case Some(JList(items)) => |items| > 0
                         case Some(JStr(s)) => |s| > 0
                         case _ => false
    ensures r.Some? && At(response, ["results"]).value.JList? ==>
              r.value == At(response, ["results"]).value.items[0]
    ensures r.Some? && At(response, ["results"]).value.JStr? ==>
              r.value == JStr(At(response, ["results"]).value.s[..1])
  {
    match Get(response, "results")
    case Some(JList(items)) => if |items| > 0 then Some(items[0]) else None
    case Some(JStr(s)) => if |s| > 0 then Some(JStr(s[..1])) else None
    case _ => None
  }
}

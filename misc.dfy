/** Membership test and container-name parsing (internal/misc/helper.go): the parser undoes
    `Types.ContainerName`. */
module Misc {
  import opened Wrappers
  import opened Text
  import opened Uuids
  import opened Types

  /** `StrContains`: whether `str` equals some element of `values`. */
  method StrContains(str: string, values: seq<string>) returns (found: bool)
    ensures found <==> str in values
  {
    for i := 0 to |values|
      invariant str !in values[..i]
    {
      if str == values[i] {
        return true;
      }
    }
    return false;
  }

  /** `HexToUUID`: exactly 32 hexadecimal characters, decoded pairwise into the 16 bytes. */
  function HexToUUID(value: string): (r: Result<Uuid>)
    ensures |value| != 32 ==> r.Err?
  {
    if |value| != 32 then Err("UUID part must be exactly 32 hexadecimal characters")
    else match HexDecode(value)
      case Err(e) => Err("failed to decode UUID hex string: " + e)
      case Ok(bytes) => var u: Uuid := bytes; Ok(u)
  }

  /** The accepted inputs are exactly the 32-character hexadecimal strings, and the i-th byte is
      the value of the i-th pair of digits. */
  lemma HexToUUIDSpec(value: string)
    ensures HexToUUID(value).Ok? <==> |value| == 32 && AllHex(value)
    ensures HexToUUID(value).Ok? ==> forall k :: 0 <= k < 16 ==>
      HexToUUID(value).value[k] as int == HexValue(value[2 * k]) * 16 + HexValue(value[2 * k + 1])
  {
    HexDecodeAccepts(value);
    if HexDecode(value).Ok? {
      HexDecodePairs(value);
    }
  }

  /** Decoding the dashless form of an id gives the id back. */
  lemma HexToUUIDOfDashless(u: Uuid)
    ensures HexToUUID(Dashless(u)) == Ok(u)
  {
    HexRoundTrip(u);
  }

  datatype ContainerIdentity = ContainerIdentity(deploymentId: Uuid, environment: string, instanceId: int, id: string)

  /** `ParseContainerIdentity`: split the name at every '-' into id, environment and instance index. */
  function ParseContainerIdentity(id: string, name: string): (r: Result<ContainerIdentity>)
    ensures r.Ok? ==> r.value.id == id && r.value.environment != ""
  {
    var values := Split(name, '-');
    if |values| != 3 then Err("invalid container name: " + name)
    else if values[1] == "" then Err("environment is empty")
    else
      var deploymentId :- HexToUUID(values[0]);
      match Atoi(values[2])
      case Err(e) => Err("invalid instanceID: " + e)
      case Ok(instanceId) => Ok(ContainerIdentity(deploymentId, values[1], instanceId, id))
  }

  /** The parser's verdict, case by case: it fails unless there are three parts, a non-empty
      middle, a valid first part and an integer third part, and on success reports exactly them. */
  lemma ParseContainerIdentitySpec(id: string, name: string)
    ensures var p := Split(name, '-');
      ParseContainerIdentity(id, name).Ok? <==>
        |p| == 3 && p[1] != "" && HexToUUID(p[0]).Ok? && Atoi(p[2]).Ok?
    ensures var p := Split(name, '-');
      ParseContainerIdentity(id, name).Ok? ==>
        ParseContainerIdentity(id, name).value ==
          ContainerIdentity(HexToUUID(p[0]).value, p[1], Atoi(p[2]).value, id)
  {
  }

  /** Round trip: the name of instance `i` of a deployment parses back to the deployment's id, its
      environment and `i`, whenever the environment is non-empty without '-' and `i` is a
      non-negative 64-bit integer. */
  lemma ContainerNameRoundTrip(id: string, d: Deployment, i: int)
    requires d.environment != "" && '-' !in d.environment
    requires 0 <= i <= MaxInt64
    ensures ParseContainerIdentity(id, ContainerName(d, i)) == Ok(ContainerIdentity(d.id, d.environment, i, id))
  {
    var a, b, c := Dashless(d.id), d.environment, IntToString(i);
    assert ContainerName(d, i) == a + ['-'] + b + ['-'] + c;
    assert '-' !in c;
    SplitThree(a, b, c, '-');
    HexToUUIDOfDashless(d.id);
    AtoiIntToString(i);
  }

  /** A negative index prints with a leading '-', so its container name never parses. */
  lemma NegativeInstanceNotParsed(id: string, d: Deployment, i: int)
    requires i < 0
    ensures ParseContainerIdentity(id, ContainerName(d, i)).Err?
  {
    assert ContainerName(d, i) == Dashless(d.id) + "-" + d.environment + "-" + "-" + NatToString(-i);
    SplitThreeDashes(Dashless(d.id), d.environment, NatToString(-i));
  }
}

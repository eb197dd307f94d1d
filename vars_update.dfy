/** The `vars update` command of the client (client/pkg/cmd/vars/update/update.go): parsing
    `KEY=value` arguments and choosing between the `--file` and the `--var` values. */
module VarsUpdate {
  import opened Wrappers
  import opened Text

  datatype KV = KV(key: string, value: string)

  /** What the command sends to the server. */
  datatype UpdateVariablesParams = UpdateVariablesParams(environment: string, vars: seq<KV>)

  /** One argument split at its first '=': the key before it, the value (which may hold more '='
      signs) after it. */
  function ParseVar(next: string): (r: Result<KV>)
  {
    match Cut(next, '=')
    case None => Err("invalid variable format: " + next + ", expected key=value")
    case Some((key, value)) => Ok(KV(key, value))
  }

  /** `parseVars` as a specification: every argument parsed in order, or the error of the first
      one without '='. */
  function ParseAll(vars: seq<string>): Result<seq<KV>>
  {
    if vars == [] then Ok([])
    else
      var parsed :- ParseAll(vars[..|vars| - 1]);
      var kv :- ParseVar(vars[|vars| - 1]);
      Ok(parsed + [kv])
  }

  /** The argument an entry was parsed from. */
  function Joined(kv: KV): string
  {
    kv.key + "=" + kv.value
  }

  /** A single argument parses exactly when it holds '=', into a key without '=' that joins back
      to the argument. */
  lemma ParseVarSpec(next: string)
    ensures ParseVar(next).Ok? <==> '=' in next
    ensures ParseVar(next).Ok? ==> '=' !in ParseVar(next).value.key && Joined(ParseVar(next).value) == next
  {
    CutSpec(next, '=');
  }

  /** Once an argument fails, the whole parse fails with its error. */
  lemma {:induction false} ParseAllStopsAtError(vars: seq<string>, k: nat)
    requires k <= |vars| && ParseAll(vars[..k]).Err?
    ensures ParseAll(vars) == ParseAll(vars[..k])
    decreases |vars|
  {
    if k < |vars| {
      var n := |vars| - 1;
      assert vars[..n][..k] == vars[..k];
      ParseAllStopsAtError(vars[..n], k);
    } else {
      assert vars[..k] == vars;
    }
  }

  /** `parseVars`: the output has one entry per argument, in order, each joining back to its
      argument; it fails exactly when some argument has no '='. */
  lemma {:induction false} ParseAllSpec(vars: seq<string>)
    ensures ParseAll(vars).Ok? <==> forall i :: 0 <= i < |vars| ==> '=' in vars[i]
    ensures ParseAll(vars).Ok? ==>
      |ParseAll(vars).value| == |vars| &&
      forall i :: 0 <= i < |vars| ==> Joined(ParseAll(vars).value[i]) == vars[i] && '=' !in ParseAll(vars).value[i].key
  {
    if vars != [] {
      var n := |vars| - 1;
      ParseAllSpec(vars[..n]);
      ParseVarSpec(vars[n]);
      assert forall i :: 0 <= i < n ==> vars[..n][i] == vars[i];
    }
  }

  /** A failed parse names the first argument without '='. */
  lemma {:induction false} ParseAllNamesFirstBad(vars: seq<string>, k: nat)
    requires k < |vars| && '=' !in vars[k] && forall i :: 0 <= i < k ==> '=' in vars[i]
    ensures ParseAll(vars) == Err("invalid variable format: " + vars[k] + ", expected key=value")
  {
    ParseAllSpec(vars[..k]);
    assert forall i :: 0 <= i < k ==> vars[..k][i] == vars[i];
    assert vars[..k + 1][..k] == vars[..k];
    ParseVarSpec(vars[k]);
    ParseAllStopsAtError(vars, k + 1);
  }

  /** Round trip: entries whose keys hold no '=' print to arguments that parse back to them; an
      empty key, as in "=v", is accepted. */
  lemma {:induction false} ParseAllJoined(kvs: seq<KV>)
    requires forall i :: 0 <= i < |kvs| ==> '=' !in kvs[i].key
    ensures ParseAll(seq(|kvs|, i requires 0 <= i < |kvs| => Joined(kvs[i]))) == Ok(kvs)
  {
    var args := seq(|kvs|, i requires 0 <= i < |kvs| => Joined(kvs[i]));
    if kvs != [] {
      var n := |kvs| - 1;
      ParseAllJoined(kvs[..n]);
      assert args[..n] == seq(|kvs[..n]|, i requires 0 <= i < |kvs[..n]| => Joined(kvs[..n][i]));
      CutJoin(kvs[n].key, '=', kvs[n].value);
      assert args[n] == kvs[n].key + ['='] + kvs[n].value;
      assert kvs[..n] + [kvs[n]] == kvs;
    }
  }

  /** The loop of `parseVars`. */
  method ParseVars(vars: seq<string>) returns (r: Result<seq<KV>>)
    ensures r == ParseAll(vars)
  {
    var result: seq<KV> := [];
    for i := 0 to |vars|
      invariant ParseAll(vars[..i]) == Ok(result)
    {
      assert vars[..i + 1][..i] == vars[..i];
      var next := vars[i];
      match Cut(next, '=')
      case None =>
        ParseAllStopsAtError(vars, i + 1);
        return Err("invalid variable format: " + next + ", expected key=value");
      case Some((key, value)) =>
        result := result + [KV(key, value)];
    }
    assert vars[..|vars|] == vars;
    return Ok(result);
  }

  /** The request the command's `Run` builds. `fileVars` is what reading the `--file` argument
      gives, consulted only when the flag is set. */
  function UpdateRequest(environment: string, varFile: string, vars: seq<string>, fileVars: Result<seq<KV>>)
    : Result<UpdateVariablesParams>
  {
    if environment == "" then Err("Please specify environment --env")
    else if varFile != "" && fileVars.Err? then Err(fileVars.error)
    else
      var fromFile := if varFile != "" then fileVars.value else [];
      if |vars| > 0 then
        var parsed :- ParseAll(vars);
        Ok(UpdateVariablesParams(environment, parsed))
      else Ok(UpdateVariablesParams(environment, fromFile))
  }

  /** An empty environment aborts whatever else is given; `--var` values replace the file's
      entirely; the file's values are sent only without `--var`. */
  lemma UpdateRequestSpec(environment: string, varFile: string, vars: seq<string>, fileVars: Result<seq<KV>>)
    ensures environment == "" ==> UpdateRequest(environment, varFile, vars, fileVars).Err?
    ensures environment != "" && (varFile == "" || fileVars.Ok?) && |vars| > 0 ==>
      UpdateRequest(environment, varFile, vars, fileVars) ==
        (if ParseAll(vars).Ok? then Ok(UpdateVariablesParams(environment, ParseAll(vars).value)) else Err(ParseAll(vars).error))
    ensures environment != "" && varFile != "" && fileVars.Ok? && |vars| == 0 ==>
      UpdateRequest(environment, varFile, vars, fileVars) == Ok(UpdateVariablesParams(environment, fileVars.value))
  {
  }
}

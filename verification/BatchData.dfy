/** etherman/etherman.go and dataavailability/dataavailability.go: the data of a sequence of
    batches is gathered from several sources and put back in order. */
module BatchData {
  import opened Wrappers

  const TWO_64: nat := 0x1_0000_0000_0000_0000

  type Bytes = seq<nat>
  type Hash = nat

  datatype Source = Local | Trusted | External | Unknown

  /** The sources of batch data, and keccak256. */
  datatype Env = Env(
    keccak: Bytes -> Hash,
    isTrustedSequencer: bool,
    priority: seq<Source>,
    localData: seq<nat> -> Result<map<nat, Bytes>>,
    trustedData: seq<nat> -> Result<seq<Bytes>>,
    backend: (seq<Hash>, Bytes) -> Result<seq<Bytes>>,
    forcedData: seq<nat> -> Result<map<nat, Bytes>>)

  /** Each datum is the pre-image of its hash, as far as there are both. */
  ghost predicate PreImages(env: Env, data: seq<Bytes>, hashes: seq<Hash>) {
    forall i :: 0 <= i < |data| && i < |hashes| ==> env.keccak(data[i]) == hashes[i]
  }

  /** The contract of the data availability backend. */
  ghost predicate BackendOk(env: Env) {
    forall hashes, msg :: env.backend(hashes, msg).Ok? ==> PreImages(env, env.backend(hashes, msg).value, hashes)
  }

  /** Only the backend is taken at its word: it keeps its contract or is not asked. */
  ghost predicate SourcesOk(env: Env) { BackendOk(env) || External !in env.priority }

  // ---- dataavailability ----

  /** The data of every number is known and has the expected hash. */
  ghost predicate AllThere(env: Env, numbers: seq<nat>, hashes: seq<Hash>, data: map<nat, Bytes>) {
    && |numbers| == |hashes|
    && forall i :: 0 <= i < |numbers| ==> numbers[i] in data && env.keccak(data[numbers[i]]) == hashes[i]
  }

  ghost function Pick(numbers: seq<nat>, data: map<nat, Bytes>): seq<Bytes>
    requires forall i :: 0 <= i < |numbers| ==> numbers[i] in data
  {
    seq(|numbers|, i requires 0 <= i < |numbers| => data[numbers[i]])
  }

  method CheckBatches(env: Env, numbers: seq<nat>, hashes: seq<Hash>, data: map<nat, Bytes>)
    returns (r: Result<seq<Bytes>>)
    ensures r.Ok? <==> AllThere(env, numbers, hashes, data)
    ensures r.Ok? ==> r.value == Pick(numbers, data)
  {
    if |numbers| != |hashes| {
      return Err;
    }
    var result := [];
    for i := 0 to |numbers|
      invariant |result| == i
      invariant forall k :: 0 <= k < i ==>
        numbers[k] in data && env.keccak(data[numbers[k]]) == hashes[k] && result[k] == data[numbers[k]]
    {
      if numbers[i] !in data || env.keccak(data[numbers[i]]) != hashes[i] {
        return Err;
      }
      result := result + [data[numbers[i]]];
    }
    r := Ok(result);
  }

  /** The trusted sequencer answered with the pre-image of every hash. */
  ghost predicate TrustedAnswers(env: Env, numbers: seq<nat>, hashes: seq<Hash>) {
    && |numbers| == |hashes|
    && env.trustedData(numbers).Ok?
    && |env.trustedData(numbers).value| == |numbers|
    && PreImages(env, env.trustedData(numbers).value, hashes)
  }

  ghost predicate Distinct(numbers: seq<nat>) {
    forall i, j :: 0 <= i < j < |numbers| ==> numbers[i] != numbers[j]
  }

  /** rpcData: what is returned goes through a map from numbers, so for distinct numbers it
      is the answer itself. */
  method RpcData(env: Env, numbers: seq<nat>, hashes: seq<Hash>) returns (r: Result<seq<Bytes>>)
    ensures r.Ok? ==> |r.value| == |numbers| && PreImages(env, r.value, hashes)
    ensures Distinct(numbers) ==> (r.Ok? <==> TrustedAnswers(env, numbers, hashes))
    ensures Distinct(numbers) && r.Ok? ==> r.value == env.trustedData(numbers).value
  {
    if |numbers| != |hashes| {
      return Err;
    }
    var answer := env.trustedData(numbers);
    if answer.Err? || |answer.value| != |numbers| {
      return Err;
    }
    var result: map<nat, Bytes> := map[];
    for i := 0 to |numbers|
      invariant Distinct(numbers) ==>
        forall k :: 0 <= k < i ==> numbers[k] in result && result[numbers[k]] == answer.value[k]
      invariant forall k :: 0 <= k < i ==> env.keccak(answer.value[k]) == hashes[k]
    {
      if env.keccak(answer.value[i]) != hashes[i] {
        return Err;
      }
      result := result[numbers[i] := answer.value[i]];
    }
    r := CheckBatches(env, numbers, hashes, result);
  }

  /** The answer for one source: None to go on with the next. */
  ghost function Ask(env: Env, source: Source, numbers: seq<nat>, hashes: seq<Hash>, msg: Bytes)
    : Option<Result<seq<Bytes>>>
  {
    match source
    case Local =>
      var local := env.localData(numbers);
      if local.Err? then Some(Err)
      else if AllThere(env, numbers, hashes, local.value) then Some(Ok(Pick(numbers, local.value)))
      else None
    case Trusted =>
      if !env.isTrustedSequencer && TrustedAnswers(env, numbers, hashes) then Some(env.trustedData(numbers)) else None
    case External => Some(env.backend(hashes, msg))
    case Unknown => None
  }

  /** The first source with an answer gives it. */
  ghost function FirstAnswer(env: Env, sources: seq<Source>, numbers: seq<nat>, hashes: seq<Hash>, msg: Bytes)
    : Result<seq<Bytes>>
  {
    if sources == [] then Err
    else
      var answer := Ask(env, sources[0], numbers, hashes, msg);
      if answer.Some? then answer.value else FirstAnswer(env, sources[1..], numbers, hashes, msg)
  }

  /** What each kind of source does to those after it: an error of the local data ends the
      search, local data that is not all there is passed over, the trusted sequencer does not ask
      itself, the backend has the last word, and an unknown source has none. */
  lemma AnswerLaws(env: Env, rest: seq<Source>, numbers: seq<nat>, hashes: seq<Hash>, msg: Bytes)
    requires |numbers| == |hashes|
    ensures FirstAnswer(env, [], numbers, hashes, msg) == Err
    ensures env.localData(numbers).Err? ==> FirstAnswer(env, [Local] + rest, numbers, hashes, msg) == Err
    ensures env.localData(numbers).Ok? && AllThere(env, numbers, hashes, env.localData(numbers).value) ==>
      FirstAnswer(env, [Local] + rest, numbers, hashes, msg) == Ok(Pick(numbers, env.localData(numbers).value))
    ensures env.localData(numbers).Ok? && !AllThere(env, numbers, hashes, env.localData(numbers).value) ==>
      FirstAnswer(env, [Local] + rest, numbers, hashes, msg) == FirstAnswer(env, rest, numbers, hashes, msg)
    ensures env.isTrustedSequencer || env.trustedData(numbers).Err? ==>
      FirstAnswer(env, [Trusted] + rest, numbers, hashes, msg) == FirstAnswer(env, rest, numbers, hashes, msg)
    ensures !env.isTrustedSequencer && TrustedAnswers(env, numbers, hashes) ==>
      FirstAnswer(env, [Trusted] + rest, numbers, hashes, msg) == env.trustedData(numbers)
    ensures FirstAnswer(env, [External] + rest, numbers, hashes, msg) == env.backend(hashes, msg)
    ensures FirstAnswer(env, [Unknown] + rest, numbers, hashes, msg) == FirstAnswer(env, rest, numbers, hashes, msg)
  {
    forall source: Source ensures ([source] + rest)[1..] == rest {}
  }

  /** GetBatchL2Data */
  method GetBatchL2Data(env: Env, numbers: seq<nat>, hashes: seq<Hash>, msg: Bytes) returns (r: Result<seq<Bytes>>)
    ensures |numbers| != |hashes| ==> r.Err?
    ensures Distinct(numbers) && |numbers| == |hashes| ==> r == FirstAnswer(env, env.priority, numbers, hashes, msg)
    ensures r.Ok? && SourcesOk(env) ==> PreImages(env, r.value, hashes)
  {
    if |numbers| != |hashes| {
      return Err;
    }
    for p := 0 to |env.priority|
      invariant Distinct(numbers) ==>
        FirstAnswer(env, env.priority, numbers, hashes, msg)
        == FirstAnswer(env, env.priority[p..], numbers, hashes, msg)
    {
      assert env.priority[p..][1..] == env.priority[p + 1..];
      match env.priority[p] {
        case Local =>
          var local := env.localData(numbers);
          if local.Err? {
            return Err;
          }
          var data := CheckBatches(env, numbers, hashes, local.value);
          if data.Ok? {
            return data;
          }
        case Trusted =>
          if !env.isTrustedSequencer {
            var data := RpcData(env, numbers, hashes);
            if data.Ok? {
              return data;
            }
          }
        case External =>
          return env.backend(hashes, msg);
        case Unknown =>
      }
    }
    r := Err;
  }

  // ---- decodeSequencedBatches ----

  datatype BatchInfo = BatchInfo(num: nat, hash: Hash, isForced: bool)

  /** The number of the i-th of n batches ending at `last`, in 64 bits. */
  function NumberOf(last: nat, n: nat, i: nat): nat
    requires i < n
  {
    (last - (n - (i + 1))) % TWO_64
  }

  /** The numbers are consecutive modulo 2^64, end at the last one, and are all different. */
  lemma NumbersAreConsecutive(last: nat, n: nat)
    requires last < TWO_64 && 0 < n <= TWO_64
    ensures NumberOf(last, n, n - 1) == last
    ensures forall i :: 0 <= i < n - 1 ==> NumberOf(last, n, i + 1) == (NumberOf(last, n, i) + 1) % TWO_64
    ensures forall i, j :: 0 <= i < j < n ==> NumberOf(last, n, i) != NumberOf(last, n, j)
  {
    forall i | 0 <= i < n ensures NumberIs(last, n, i) { NumberCases(last, n, i); }
    forall i | 0 <= i < n - 1 ensures NumberOf(last, n, i + 1) == (NumberOf(last, n, i) + 1) % TWO_64 {
      assert NumberIs(last, n, i) && NumberIs(last, n, i + 1);
    }
    forall i, j | 0 <= i < j < n ensures NumberOf(last, n, i) != NumberOf(last, n, j) {
      assert NumberIs(last, n, i) && NumberIs(last, n, j);
    }
  }

  ghost predicate NumberIs(last: nat, n: nat, i: nat)
    requires i < n
  {
    var d := last + 1 + i - n;
    NumberOf(last, n, i) == if d >= 0 then d else d + TWO_64
  }

  lemma NumberCases(last: nat, n: nat, i: nat)
    requires last < TWO_64 && i < n <= TWO_64
    ensures NumberIs(last, n, i)
  {
  }

  ghost function NumsOf(infos: seq<BatchInfo>, forced: bool): seq<nat> {
    if infos == [] then []
    else
      var before := NumsOf(infos[..|infos| - 1], forced);
      if infos[|infos| - 1].isForced == forced then before + [infos[|infos| - 1].num] else before
  }

  ghost function HashesOf(infos: seq<BatchInfo>, forced: bool): (hashes: seq<Hash>)
    ensures |hashes| == |NumsOf(infos, forced)|
  {
    if infos == [] then []
    else
      var before := HashesOf(infos[..|infos| - 1], forced);
      if infos[|infos| - 1].isForced == forced then before + [infos[|infos| - 1].hash] else before
  }

  ghost predicate DistinctInfos(infos: seq<BatchInfo>) {
    forall i, j :: 0 <= i < j < |infos| ==> infos[i].num != infos[j].num
  }

  /** Batches of one kind with the same number have the same hash. */
  ghost predicate Coherent(infos: seq<BatchInfo>, forced: bool) {
    forall i, j | 0 <= i < |infos| && 0 <= j < |infos| ::
      infos[i].isForced == infos[j].isForced == forced && infos[i].num == infos[j].num ==>
        infos[i].hash == infos[j].hash
  }

  lemma CoherentLists(infos: seq<BatchInfo>, forced: bool, j: nat, k: nat)
    requires Coherent(infos, forced) && j < |NumsOf(infos, forced)| && k < |NumsOf(infos, forced)|
    requires NumsOf(infos, forced)[j] == NumsOf(infos, forced)[k]
    ensures HashesOf(infos, forced)[j] == HashesOf(infos, forced)[k]
  {
    var a := NumsComeFrom(infos, forced, j);
    var b := NumsComeFrom(infos, forced, k);
  }

  /** Where the i-th batch goes when the forced and the other batches are taken apart: behind
      those of its kind before it. */
  ghost function Place(infos: seq<BatchInfo>, i: nat): nat
    requires i < |infos|
  {
    |NumsOf(infos[..i], infos[i].isForced)|
  }

  lemma {:induction false} PlaceOf(infos: seq<BatchInfo>, i: nat)
    requires i < |infos|
    ensures Place(infos, i) < |NumsOf(infos, infos[i].isForced)|
    ensures NumsOf(infos, infos[i].isForced)[Place(infos, i)] == infos[i].num
    ensures HashesOf(infos, infos[i].isForced)[Place(infos, i)] == infos[i].hash
  {
    if i < |infos| - 1 {
      PlaceOf(infos[..|infos| - 1], i);
      assert infos[..|infos| - 1][..i] == infos[..i];
    }
  }

  lemma {:induction false} NumsComeFrom(infos: seq<BatchInfo>, forced: bool, k: nat) returns (i: nat)
    requires k < |NumsOf(infos, forced)|
    ensures i < |infos| && infos[i].num == NumsOf(infos, forced)[k] && infos[i].isForced == forced
    ensures infos[i].hash == HashesOf(infos, forced)[k]
  {
    var front := infos[..|infos| - 1];
    if k < |NumsOf(front, forced)| {
      i := NumsComeFrom(front, forced, k);
    } else {
      i := |infos| - 1;
    }
  }

  lemma {:induction false} NumsAreDistinct(infos: seq<BatchInfo>, forced: bool)
    requires DistinctInfos(infos)
    ensures Distinct(NumsOf(infos, forced))
  {
    if infos != [] {
      var front := infos[..|infos| - 1];
      NumsAreDistinct(front, forced);
      forall k | 0 <= k < |NumsOf(front, forced)| ensures NumsOf(front, forced)[k] != infos[|infos| - 1].num {
        var i := NumsComeFrom(front, forced, k);
      }
    }
  }

  /** The loops that take the batches of one kind apart. */
  method Select(infos: seq<BatchInfo>, forced: bool) returns (numbers: seq<nat>, hashes: seq<Hash>)
    ensures numbers == NumsOf(infos, forced) && hashes == HashesOf(infos, forced)
  {
    numbers, hashes := [], [];
    for i := 0 to |infos|
      invariant numbers == NumsOf(infos[..i], forced) && hashes == HashesOf(infos[..i], forced)
    {
      assert infos[..i + 1][..i] == infos[..i];
      if infos[i].isForced == forced {
        numbers := numbers + [infos[i].num];
        hashes := hashes + [infos[i].hash];
      }
    }
    assert infos[..|infos|] == infos;
  }

  /** Every batch of one kind has data under its number, with its hash. */
  ghost predicate Supplies(env: Env, infos: seq<BatchInfo>, forced: bool, data: map<nat, Bytes>) {
    forall i :: 0 <= i < |infos| && infos[i].isForced == forced ==>
      infos[i].num in data && env.keccak(data[infos[i].num]) == infos[i].hash
  }

  lemma AllThereSupplies(env: Env, infos: seq<BatchInfo>, forced: bool, data: map<nat, Bytes>)
    requires AllThere(env, NumsOf(infos, forced), HashesOf(infos, forced), data)
    ensures Supplies(env, infos, forced, data)
  {
    forall i | 0 <= i < |infos| && infos[i].isForced == forced
      ensures infos[i].num in data && env.keccak(data[infos[i].num]) == infos[i].hash
    {
      PlaceOf(infos, i);
    }
  }

  /** The answer is stored under the numbers; of a repeated number the last one stays. */
  method ByNumber(numbers: seq<nat>, answer: seq<Bytes>) returns (data: map<nat, Bytes>)
    requires |answer| == |numbers|
    ensures forall k :: 0 <= k < |numbers| ==>
      numbers[k] in data && FromAnswer(numbers, answer, numbers[k], data[numbers[k]])
    ensures Distinct(numbers) ==> forall k :: 0 <= k < |numbers| ==> data[numbers[k]] == answer[k]
  {
    data := map[];
    for i := 0 to |numbers|
      invariant forall k :: 0 <= k < i ==>
        numbers[k] in data && FromAnswer(numbers, answer, numbers[k], data[numbers[k]])
      invariant Distinct(numbers) ==> forall k :: 0 <= k < i ==> data[numbers[k]] == answer[k]
    {
      data := data[numbers[i] := answer[i]];
      assert FromAnswer(numbers, answer, numbers[i], answer[i]);
    }
  }

  ghost predicate FromAnswer(numbers: seq<nat>, answer: seq<Bytes>, number: nat, datum: Bytes)
    requires |answer| == |numbers|
  {
    exists j :: 0 <= j < |numbers| && numbers[j] == number && answer[j] == datum
  }

  lemma SuppliesIffCoherent(env: Env, infos: seq<BatchInfo>, answer: seq<Bytes>, data: map<nat, Bytes>)
    requires |answer| == |NumsOf(infos, false)| && PreImages(env, answer, HashesOf(infos, false))
    requires forall k :: 0 <= k < |NumsOf(infos, false)| ==>
      && NumsOf(infos, false)[k] in data
      && FromAnswer(NumsOf(infos, false), answer, NumsOf(infos, false)[k], data[NumsOf(infos, false)[k]])
    ensures Supplies(env, infos, false, data) <==> Coherent(infos, false)
  {
    hide NumsOf, HashesOf;
    var numbers, hashes := NumsOf(infos, false), HashesOf(infos, false);
    if Coherent(infos, false) {
      forall k | 0 <= k < |numbers| ensures env.keccak(data[numbers[k]]) == hashes[k] {
        var j :| 0 <= j < |numbers| && numbers[j] == numbers[k] && answer[j] == data[numbers[k]];
        CoherentLists(infos, false, j, k);
      }
      AllThereSupplies(env, infos, false, data);
    }
  }

  /** getBatchL2Data: every non-forced batch has data with its hash, exactly if no number comes
      with two hashes. */
  method GetNonForced(env: Env, infos: seq<BatchInfo>, msg: Bytes) returns (r: Result<map<nat, Bytes>>)
    ensures r.Ok? ==> forall k :: 0 <= k < |NumsOf(infos, false)| ==> NumsOf(infos, false)[k] in r.value
    ensures DistinctInfos(infos) ==> (r.Ok? <==> NonForcedAnswered(env, infos, msg))
    ensures DistinctInfos(infos) && r.Ok? ==> forall k :: 0 <= k < |NumsOf(infos, false)| ==>
      var answer := FirstAnswer(env, env.priority, NumsOf(infos, false), HashesOf(infos, false), msg);
      answer.Ok? && |answer.value| == |NumsOf(infos, false)| && r.value[NumsOf(infos, false)[k]] == answer.value[k]
    ensures r.Ok? && SourcesOk(env) ==> (Supplies(env, infos, false, r.value) <==> Coherent(infos, false))
  {
    hide FirstAnswer, NumsOf, HashesOf, SourcesOk, Supplies, Coherent, DistinctInfos;
    var numbers, hashes := Select(infos, false);
    if DistinctInfos(infos) { NumsAreDistinct(infos, false); }
    if |numbers| == 0 {
      SuppliesIffCoherent(env, infos, [], map[]);
      return Ok(map[]);
    }
    var answer := GetBatchL2Data(env, numbers, hashes, msg);
    if answer.Err? || |answer.value| != |numbers| {
      return Err;
    }
    var data := ByNumber(numbers, answer.value);
    if SourcesOk(env) { SuppliesIffCoherent(env, infos, answer.value, data); }
    r := Ok(data);
  }

  /** getForcedBatchData */
  method GetForced(env: Env, infos: seq<BatchInfo>) returns (r: Result<map<nat, Bytes>>)
    ensures var numbers, hashes := NumsOf(infos, true), HashesOf(infos, true);
      && (r.Ok? <==> numbers == []
                     || (env.forcedData(numbers).Ok? && AllThere(env, numbers, hashes, env.forcedData(numbers).value)))
      && (r.Ok? && numbers != [] ==> r == env.forcedData(numbers))
    ensures r.Ok? ==> Supplies(env, infos, true, r.value)
  {
    hide NumsOf, HashesOf;
    var numbers, hashes := Select(infos, true);
    if |numbers| == 0 {
      AllThereSupplies(env, infos, true, map[]);
      return Ok(map[]);
    }
    r := env.forcedData(numbers);
    if r.Err? {
      return Err;
    }
    for i := 0 to |numbers|
      invariant forall k :: 0 <= k < i ==> numbers[k] in r.value && env.keccak(r.value[numbers[k]]) == hashes[k]
    {
      if numbers[i] !in r.value || env.keccak(r.value[numbers[i]]) != hashes[i] {
        return Err;
      }
    }
    AllThereSupplies(env, infos, true, r.value);
  }

  /** retrieveBatchData: the i-th datum has the i-th hash, whichever source it came from,
      exactly if no number of a non-forced batch comes with two hashes. */
  method RetrieveBatchData(env: Env, infos: seq<BatchInfo>, msg: Bytes) returns (r: Result<seq<Bytes>>)
    ensures DistinctInfos(infos) ==> (r.Ok? <==> NonForcedAnswered(env, infos, msg) && ForcedAnswered(env, infos))
    ensures r.Ok? ==> |r.value| == |infos|
    ensures r.Ok? && SourcesOk(env) ==>
      ((forall i :: 0 <= i < |infos| ==> env.keccak(r.value[i]) == infos[i].hash) <==> Coherent(infos, false))
    ensures r.Ok? ==> forall i :: 0 <= i < |infos| && infos[i].isForced ==> env.keccak(r.value[i]) == infos[i].hash
    ensures DistinctInfos(infos) && r.Ok? ==> forall i :: 0 <= i < |infos| ==> DatumOf(env, infos, msg, i, r.value[i])
  {
    hide FirstAnswer, NumsOf, HashesOf, SourcesOk, DistinctInfos, DatumOf;
    var others := GetNonForced(env, infos, msg);
    if others.Err? {
      return Err;
    }
    var forced := GetForced(env, infos);
    if forced.Err? {
      return Err;
    }
    var data := [];
    for i := 0 to |infos|
      invariant |data| == i
      invariant forall k :: 0 <= k < i ==>
        var source := if infos[k].isForced then forced.value else others.value;
        infos[k].num in source && data[k] == source[infos[k].num]
    {
      if infos[i].isForced {
        data := data + [forced.value[infos[i].num]];
      } else {
        Answered(infos, i, others.value);
        data := data + [others.value[infos[i].num]];
      }
    }
    if DistinctInfos(infos) {
      forall i | 0 <= i < |infos| ensures DatumOf(env, infos, msg, i, data[i]) {
        DatumIs(env, infos, msg, i, data[i], if infos[i].isForced then forced.value else others.value);
      }
    }
    r := Ok(data);
  }

  /** The datum of the i-th batch is the one under its number in the forced batches of the state,
      or the one at its place in the answer of the first source. */
  ghost predicate DatumOf(env: Env, infos: seq<BatchInfo>, msg: Bytes, i: nat, datum: Bytes)
    requires i < |infos|
  {
    if infos[i].isForced then
      var forced := env.forcedData(NumsOf(infos, true));
      forced.Ok? && infos[i].num in forced.value && datum == forced.value[infos[i].num]
    else
      var answer := FirstAnswer(env, env.priority, NumsOf(infos, false), HashesOf(infos, false), msg);
      answer.Ok? && Place(infos, i) < |answer.value| && datum == answer.value[Place(infos, i)]
  }

  lemma DatumIs(env: Env, infos: seq<BatchInfo>, msg: Bytes, i: nat, datum: Bytes, source: map<nat, Bytes>)
    requires i < |infos| && infos[i].num in source && datum == source[infos[i].num]
    requires infos[i].isForced && NumsOf(infos, true) != [] ==> Ok(source) == env.forcedData(NumsOf(infos, true))
    requires !infos[i].isForced ==> forall k :: 0 <= k < |NumsOf(infos, false)| ==>
      var answer := FirstAnswer(env, env.priority, NumsOf(infos, false), HashesOf(infos, false), msg);
      && answer.Ok? && |answer.value| == |NumsOf(infos, false)|
      && NumsOf(infos, false)[k] in source && source[NumsOf(infos, false)[k]] == answer.value[k]
    ensures DatumOf(env, infos, msg, i, datum)
  {
    hide FirstAnswer, NumsOf, HashesOf, Place;
    PlaceOf(infos, i);
  }

  ghost predicate NonForcedAnswered(env: Env, infos: seq<BatchInfo>, msg: Bytes) {
    var numbers, hashes := NumsOf(infos, false), HashesOf(infos, false);
    var answer := FirstAnswer(env, env.priority, numbers, hashes, msg);
    numbers == [] || (answer.Ok? && |answer.value| == |numbers|)
  }

  ghost predicate ForcedAnswered(env: Env, infos: seq<BatchInfo>) {
    var numbers, hashes := NumsOf(infos, true), HashesOf(infos, true);
    numbers == [] || (env.forcedData(numbers).Ok? && AllThere(env, numbers, hashes, env.forcedData(numbers).value))
  }

  lemma Answered(infos: seq<BatchInfo>, i: nat, data: map<nat, Bytes>)
    requires i < |infos| && !infos[i].isForced
    requires forall k :: 0 <= k < |NumsOf(infos, false)| ==> NumsOf(infos, false)[k] in data
    ensures infos[i].num in data
  {
    PlaceOf(infos, i);
  }

  const FORKID_ETROG: nat := 7
  const FORKID_ELDERBERRY: nat := 8

  /** A batch of the validium call. */
  datatype ValidiumBatch = ValidiumBatch(
    transactionsHash: Hash, forcedTimestamp: nat, forcedGlobalExitRoot: Hash, forcedBlockHash: Hash)

  /** The other arguments of the call and of its transaction. The coinbase and the message are
      read for the Etrog and the Elderberry fork, the last two for the Elderberry fork only; what
      is not read is zero or empty. */
  datatype Call = Call(
    forkID: nat, sequencer: nat, txHash: Hash, nonce: nat, l1InfoRoot: Hash, coinbase: nat, message: Bytes,
    maxSequenceTimestamp: nat, initSequencedBatchNumber: nat)
  {
    predicate ReadsCoinbase() { forkID == FORKID_ETROG || forkID == FORKID_ELDERBERRY }

    function Message(): Bytes { if ReadsCoinbase() then message else [] }
  }

  datatype Elderberry = Elderberry(maxSequenceTimestamp: nat, initSequencedBatchNumber: nat)

  datatype SequencedBatch = SequencedBatch(
    number: nat, l1InfoRoot: Hash, sequencer: nat, txHash: Hash, nonce: nat, coinbase: nat,
    transactions: Bytes, forcedTimestamp: nat, forcedGlobalExitRoot: Hash, forcedBlockHash: Hash,
    elderberry: Option<Elderberry>)

  /** What a decoded batch takes from its call. */
  ghost predicate TakenFrom(b: SequencedBatch, call: Call, batch: ValidiumBatch) {
    && b.l1InfoRoot == call.l1InfoRoot && b.sequencer == call.sequencer && b.txHash == call.txHash
    && b.nonce == call.nonce && b.coinbase == (if call.forkID in {7, 8} then call.coinbase else 0)
    && b.forcedTimestamp == batch.forcedTimestamp && b.forcedGlobalExitRoot == batch.forcedGlobalExitRoot
    && b.forcedBlockHash == batch.forcedBlockHash
    && (b.elderberry.Some? <==> call.forkID >= 8)
    && (b.elderberry.Some? ==>
          b.elderberry.value == if call.forkID == 8
                                then Elderberry(call.maxSequenceTimestamp, call.initSequencedBatchNumber)
                                else Elderberry(0, 0))
  }

  /** The batches that are asked for: with consecutive numbers up to the last one, with their
      hash, and forced if they have a forced timestamp. */
  ghost predicate AskedFor(infos: seq<BatchInfo>, last: nat, sequences: seq<ValidiumBatch>) {
    && |infos| == |sequences|
    && forall i :: 0 <= i < |infos| ==>
         && infos[i].num == (last + 1 + i - |infos|) % TWO_64
         && infos[i].hash == sequences[i].transactionsHash
         && (infos[i].isForced <==> sequences[i].forcedTimestamp > 0)
  }

  /** The loop that pairs number, hash and kind. The numbers are all different. */
  method Infos(last: nat, sequences: seq<ValidiumBatch>) returns (infos: seq<BatchInfo>)
    requires last < TWO_64 && |sequences| < TWO_64
    ensures AskedFor(infos, last, sequences) && DistinctInfos(infos)
  {
    infos := [];
    for i := 0 to |sequences|
      invariant |infos| == i && forall k :: 0 <= k < i ==>
        && infos[k].num == NumberOf(last, |sequences|, k) == (last + 1 + k - |sequences|) % TWO_64
        && infos[k].hash == sequences[k].transactionsHash
        && (infos[k].isForced <==> sequences[k].forcedTimestamp > 0)
    {
      infos := infos + [
        BatchInfo(NumberOf(last, |sequences|, i), sequences[i].transactionsHash, sequences[i].forcedTimestamp > 0)];
    }
    hide NumberOf;
    if |sequences| > 0 { NumbersAreConsecutive(last, |sequences|); }
  }

  lemma DistinctIsCoherent(infos: seq<BatchInfo>)
    requires DistinctInfos(infos)
    ensures Coherent(infos, false)
  {
    forall i, j | 0 <= i < |infos| && 0 <= j < |infos| && infos[i].num == infos[j].num ensures i == j {}
  }

  /** decodeSequencedBatches for sequenceBatchesValidium: consecutive numbers up to the last
      one, each batch with the pre-image of its hash and the fields of its call. A forced batch
      has the datum of the state under its number, any other one that of the first source. */
  method DecodeValidium(env: Env, call: Call, last: nat, sequences: seq<ValidiumBatch>)
    returns (r: Result<seq<SequencedBatch>>, ghost infos: seq<BatchInfo>, ghost msg: Bytes)
    requires last < TWO_64 && |sequences| < TWO_64
    ensures AskedFor(infos, last, sequences) && msg == if call.forkID in {7, 8} then call.message else []
    ensures r.Ok? <==> NonForcedAnswered(env, infos, msg) && ForcedAnswered(env, infos)
    ensures r.Ok? ==> |r.value| == |sequences|
    ensures r.Ok? ==> forall i :: 0 <= i < |sequences| ==>
      && r.value[i].number == (last + 1 + i - |sequences|) % TWO_64 && TakenFrom(r.value[i], call, sequences[i])
      && DatumOf(env, infos, msg, i, r.value[i].transactions)
    ensures r.Ok? ==> forall i :: 0 <= i < |sequences| && (sequences[i].forcedTimestamp > 0 || SourcesOk(env)) ==>
      env.keccak(r.value[i].transactions) == sequences[i].transactionsHash
  {
    hide SourcesOk, NonForcedAnswered, ForcedAnswered, DistinctInfos, Coherent, DatumOf, TakenFrom;
    var asked := Infos(last, sequences);
    infos, msg := asked, call.Message();
    DistinctIsCoherent(infos);
    var data := RetrieveBatchData(env, asked, call.Message());
    if data.Err? {
      r := Err;
      return;
    }
    var batches: seq<SequencedBatch> := [];
    for i := 0 to |asked|
      invariant |batches| == i
      invariant forall k :: 0 <= k < i ==>
        && batches[k].number == asked[k].num && batches[k].transactions == data.value[k]
        && TakenFrom(batches[k], call, sequences[k])
    {
      batches := batches + [Decoded(call, asked[i].num, data.value[i], sequences[i])];
    }
    r := Ok(batches);
  }

  lemma {:induction false} AllOfOneKind(infos: seq<BatchInfo>, forced: bool)
    requires forall i :: 0 <= i < |infos| ==> infos[i].isForced == forced
    ensures NumsOf(infos, !forced) == []
    ensures |NumsOf(infos, forced)| == |infos|
    ensures forall i :: 0 <= i < |infos| ==>
      NumsOf(infos, forced)[i] == infos[i].num && HashesOf(infos, forced)[i] == infos[i].hash
    ensures forall i :: 0 <= i < |infos| ==> Place(infos, i) == i
  {
    if infos != [] {
      var front := infos[..|infos| - 1];
      AllOfOneKind(front, forced);
      forall i | 0 <= i < |front| ensures Place(infos, i) == i {
        assert front[..i] == infos[..i] && Place(front, i) == i;
      }
    }
  }

  /** A call without forced batches: the data is, in order, what the first source answers for all
      the numbers and hashes, and it succeeds exactly when that is all of it. */
  method DecodeOrdinary(env: Env, call: Call, last: nat, sequences: seq<ValidiumBatch>)
    returns (r: Result<seq<SequencedBatch>>, ghost answer: Result<seq<Bytes>>)
    requires last < TWO_64 && 0 < |sequences| < TWO_64
    requires forall i :: 0 <= i < |sequences| ==> sequences[i].forcedTimestamp == 0
    ensures answer == FirstAnswer(
      env, env.priority,
      seq(|sequences|, i requires 0 <= i < |sequences| => (last + 1 + i - |sequences|) % TWO_64),
      seq(|sequences|, i requires 0 <= i < |sequences| => sequences[i].transactionsHash),
      if call.forkID in {7, 8} then call.message else [])
    ensures r.Ok? <==> answer.Ok? && |answer.value| == |sequences|
    ensures r.Ok? ==> |r.value| == |sequences|
    ensures r.Ok? ==> forall i :: 0 <= i < |sequences| ==> r.value[i].transactions == answer.value[i]
  {
    ghost var infos, msg;
    r, infos, msg := DecodeValidium(env, call, last, sequences);
    hide FirstAnswer, NumsOf, HashesOf, Place;
    AllOfOneKind(infos, false);
    answer := FirstAnswer(env, env.priority, NumsOf(infos, false), HashesOf(infos, false), msg);
    assert NumsOf(infos, false)
        == seq(|sequences|, i requires 0 <= i < |sequences| => (last + 1 + i - |sequences|) % TWO_64);
    assert HashesOf(infos, false)
        == seq(|sequences|, i requires 0 <= i < |sequences| => sequences[i].transactionsHash);
  }

  /** One turn of the last loop. */
  function Decoded(call: Call, number: nat, transactions: Bytes, batch: ValidiumBatch): (b: SequencedBatch)
    ensures b.number == number && b.transactions == transactions && TakenFrom(b, call, batch)
  {
    var isElderberry := call.forkID == FORKID_ELDERBERRY;
    SequencedBatch(
      number, call.l1InfoRoot, call.sequencer, call.txHash, call.nonce,
      if call.ReadsCoinbase() then call.coinbase else 0, transactions,
      batch.forcedTimestamp, batch.forcedGlobalExitRoot, batch.forcedBlockHash,
      if call.forkID < FORKID_ELDERBERRY then None
      else Some(Elderberry(if isElderberry then call.maxSequenceTimestamp else 0,
                           if isElderberry then call.initSequencedBatchNumber else 0)))
  }
}

/** Downloading device keys by chunks: concurrent requests, merged in the order they complete. */
module ChunkedKeys {
  import opened Basics

  type DeviceMap = map<string, string>

  datatype KeysResponse =
    KeysResponse(deviceKeys: Option<map<string, DeviceMap>>, crossSigningKeys: Option<map<string, string>>)

  type Reply = Response<KeysResponse, int>

  const EMPTY := KeysResponse(None, None)

  // ---------- The merge ----------

  // NSDictionary `+`, one level down: both sides' entries, the right one where a key is in both.
  function MergeDevices(l: map<string, DeviceMap>, r: map<string, DeviceMap>): map<string, DeviceMap> {
    map user | user in l.Keys + r.Keys ::
      if user in l && user in r then l[user] + r[user] else if user in r then r[user] else l[user]
  }

  function OrEmpty<K, V>(m: Option<map<K, V>>): map<K, V> { if m.Some? then m.value else map[] }

  function Plus(l: KeysResponse, r: KeysResponse): KeysResponse {
    KeysResponse(Some(MergeDevices(OrEmpty(l.deviceKeys), OrEmpty(r.deviceKeys))),
                 Some(OrEmpty(l.crossSigningKeys) + OrEmpty(r.crossSigningKeys)))
  }

  function PlusReply(l: Reply, r: Reply): Reply {
    if l.Failure? then l else if r.Failure? then r else Success(Plus(l.value, r.value))
  }

  // `reduce(.success(MXKeysQueryResponse()), +)`
  function Reduced(replies: seq<Reply>): Reply {
    if replies == [] then Success(EMPTY) else PlusReply(Reduced(replies[..|replies|-1]), replies[|replies|-1])
  }

  // The fold succeeds iff every reply did; otherwise it is the first failure to have arrived.
  lemma {:induction false} ReducedOutcome(replies: seq<Reply>)
    ensures Reduced(replies).Success? <==> forall r | r in replies :: r.Success?
    ensures Reduced(replies).Failure? ==>
      First(replies, (r: Reply) => r.Failure?) == Some(Reduced(replies))
  {
    if replies != [] {
      var init, last := replies[..|replies|-1], replies[|replies|-1];
      ReducedOutcome(init);
      assert replies == init + [last];
      FirstOfAppend(init, last, (r: Reply) => r.Failure?);
    }
  }

  // The entry of a device in one reply, and in the last reply that has one.
  function DeviceIn(r: KeysResponse, user: string, device: string): Option<string> {
    var devices := OrEmpty(r.deviceKeys);
    if user in devices && device in devices[user] then Some(devices[user][device]) else None
  }

  function CrossIn(r: KeysResponse, user: string): Option<string> {
    var keys := OrEmpty(r.crossSigningKeys);
    if user in keys then Some(keys[user]) else None
  }

  function LastDevice(replies: seq<Reply>, user: string, device: string): Option<string> {
    if replies == [] then None
    else
      var last := replies[|replies|-1];
      OrElse(if last.Success? then DeviceIn(last.value, user, device) else None,
             LastDevice(replies[..|replies|-1], user, device))
  }

  function LastCross(replies: seq<Reply>, user: string): Option<string> {
    if replies == [] then None
    else
      var last := replies[|replies|-1];
      OrElse(if last.Success? then CrossIn(last.value, user) else None, LastCross(replies[..|replies|-1], user))
  }

  // Whatever the servers answer, even different keys for one user: each entry is that of the last reply to have one.
  lemma {:induction false} LastReplyWins(replies: seq<Reply>, user: string, device: string)
    requires Reduced(replies).Success?
    ensures DeviceIn(Reduced(replies).value, user, device) == LastDevice(replies, user, device)
    ensures CrossIn(Reduced(replies).value, user) == LastCross(replies, user)
  {
    if replies != [] {
      LastReplyWins(replies[..|replies|-1], user, device);
    }
  }

  // Two replies may arrive in either order exactly when they agree wherever both have an entry.
  lemma PlusCommutesIff(l: KeysResponse, r: KeysResponse)
    ensures Plus(l, r) == Plus(r, l) <==>
      && (forall user, device | DeviceIn(l, user, device).Some? && DeviceIn(r, user, device).Some? ::
            DeviceIn(l, user, device) == DeviceIn(r, user, device))
      && (forall user | CrossIn(l, user).Some? && CrossIn(r, user).Some? :: CrossIn(l, user) == CrossIn(r, user))
  {
    PlusEntries(l, r);
    PlusEntries(r, l);
    var lr, rl := Plus(l, r), Plus(r, l);
    if lr == rl {
      assert forall user, device :: DeviceIn(lr, user, device) == DeviceIn(rl, user, device);
      assert forall user :: CrossIn(lr, user) == CrossIn(rl, user);
    } else if (forall user, device :: DeviceIn(lr, user, device) == DeviceIn(rl, user, device))
              && (forall user :: CrossIn(lr, user) == CrossIn(rl, user)) {
      SameEntries(lr, rl);
    }
  }

  lemma PlusEntries(l: KeysResponse, r: KeysResponse)
    ensures forall user, device ::
      DeviceIn(Plus(l, r), user, device) == OrElse(DeviceIn(r, user, device), DeviceIn(l, user, device))
    ensures forall user :: CrossIn(Plus(l, r), user) == OrElse(CrossIn(r, user), CrossIn(l, user))
  {
  }

  lemma SameEntries(a: KeysResponse, b: KeysResponse)
    requires a.deviceKeys.Some? && b.deviceKeys.Some? && a.crossSigningKeys.Some? && b.crossSigningKeys.Some?
    requires a.deviceKeys.value.Keys == b.deviceKeys.value.Keys
    requires forall user, device :: DeviceIn(a, user, device) == DeviceIn(b, user, device)
    requires forall user :: CrossIn(a, user) == CrossIn(b, user)
    ensures a == b
  {
    var m, n := a.deviceKeys.value, b.deviceKeys.value;
    forall user | user in m ensures m[user] == n[user] {
      forall device ensures device in m[user] <==> device in n[user] {
        assert DeviceIn(a, user, device) == DeviceIn(b, user, device);
      }
      forall device | device in m[user] ensures m[user][device] == n[user][device] {
        assert DeviceIn(a, user, device) == DeviceIn(b, user, device);
      }
    }
    assert m == n;
    forall user ensures user in a.crossSigningKeys.value <==> user in b.crossSigningKeys.value {
      assert CrossIn(a, user) == CrossIn(b, user);
    }
    forall user | user in a.crossSigningKeys.value
      ensures a.crossSigningKeys.value[user] == b.crossSigningKeys.value[user]
    {
      assert CrossIn(a, user) == CrossIn(b, user);
    }
    assert a.crossSigningKeys.value == b.crossSigningKeys.value;
  }

  // ---------- The server ----------

  datatype UserKeys = UserKeys(devices: Option<DeviceMap>, crossSigning: Option<string>)

  // A server whose answer for a user does not depend on the other users asked for.
  function Answer(server: string -> UserKeys, users: seq<string>): KeysResponse {
    KeysResponse(
      Some(map user | user in users && server(user).devices.Some? :: server(user).devices.value),
      Some(map user | user in users && server(user).crossSigning.Some? :: server(user).crossSigning.value))
  }

  lemma AnswersAdd(server: string -> UserKeys, a: seq<string>, b: seq<string>)
    ensures Plus(Answer(server, a), Answer(server, b)) == Answer(server, a + b)
  {
    var l, r, both := Answer(server, a), Answer(server, b), Answer(server, a + b);
    var devices := MergeDevices(l.deviceKeys.value, r.deviceKeys.value);
    assert devices.Keys == both.deviceKeys.value.Keys;
    forall user | user in devices ensures devices[user] == both.deviceKeys.value[user] {
      var d := server(user).devices.value;
      assert d + d == d;
    }
    assert devices == both.deviceKeys.value;
    assert l.crossSigningKeys.value + r.crossSigningKeys.value == both.crossSigningKeys.value;
  }

  lemma AnswerBySet(server: string -> UserKeys, a: seq<string>, b: seq<string>)
    requires forall user :: user in a <==> user in b
    ensures Answer(server, a) == Answer(server, b)
  {
    assert Answer(server, a).deviceKeys.value == Answer(server, b).deviceKeys.value;
    assert Answer(server, a).crossSigningKeys.value == Answer(server, b).crossSigningKeys.value;
  }

  // ---------- Chunks ----------

  // stride(from: 0, to: count, by: size); a negative stride visits nothing.
  function Chunked(users: seq<string>, size: int): seq<seq<string>>
    requires size != 0
  {
    if users == [] || size < 0 then []
    else if |users| <= size then [users]
    else [users[..size]] + Chunked(users[size..], size)
  }

  function Flatten(chunks: seq<seq<string>>): seq<string> {
    if chunks == [] then [] else chunks[0] + Flatten(chunks[1..])
  }

  lemma {:induction false} ChunksPartition(users: seq<string>, size: int)
    requires size > 0
    ensures Flatten(Chunked(users, size)) == users
    ensures forall c | c in Chunked(users, size) :: 0 < |c| <= size
    ensures forall i | 0 <= i < |Chunked(users, size)| - 1 :: |Chunked(users, size)[i]| == size
    decreases |users|
  {
    if users == [] {
    } else if |users| <= size {
      FlattenFirst(users, []);
    } else {
      ChunksPartition(users[size..], size);
      FlattenFirst(users[..size], Chunked(users[size..], size));
    }
  }

  lemma FlattenFirst(chunk: seq<string>, rest: seq<seq<string>>)
    ensures Flatten([chunk] + rest) == chunk + Flatten(rest)
  {
  }

  predicate InSome(chunks: seq<seq<string>>, user: string) { exists i :: 0 <= i < |chunks| && user in chunks[i] }

  lemma {:induction false} FlattenMembers(chunks: seq<seq<string>>, user: string)
    ensures user in Flatten(chunks) <==> InSome(chunks, user)
  {
    if chunks != [] {
      FlattenMembers(chunks[1..], user);
      InSomeNext(chunks, user);
    }
  }

  lemma InSomeNext(chunks: seq<seq<string>>, user: string)
    requires chunks != []
    ensures InSome(chunks, user) <==> user in chunks[0] || InSome(chunks[1..], user)
  {
  }

  // ---------- The download ----------

  // `order` lists the chunks whose reply arrived, in order of arrival.
  datatype Download = Download(
    direct: bool, chunks: seq<seq<string>>, order: seq<nat>, responses: seq<Reply>,
    notified: bool, cancelled: bool, completions: seq<Reply>)

  datatype Input = ChunkReply(chunk: nat, reply: Reply) | Notify | Cancel

  function Start(users: seq<string>, chunkSize: int): Download
    requires |users| <= chunkSize || chunkSize != 0
  {
    if |users| <= chunkSize then Download(true, [users], [], [], false, false, [])
    else Download(false, Chunked(users, chunkSize), [], [], false, false, [])
  }

  predicate Enabled(d: Download, input: Input) {
    match input
    case ChunkReply(chunk, _) => chunk < |d.chunks| && chunk !in d.order
    case Notify => !d.direct && !d.notified && |d.order| == |d.chunks|   // the group is empty
    case Cancel => !d.direct
  }

  function Step(d: Download, input: Input): Download {
    match input
    case ChunkReply(chunk, reply) =>
      if d.direct then d.(order := d.order + [chunk], completions := d.completions + [reply])
      else d.(order := d.order + [chunk], responses := d.responses + [reply])
    case Notify =>
      if d.cancelled then d.(notified := true)
      else d.(notified := true, completions := d.completions + [Reduced(d.responses)])
    case Cancel => d.(cancelled := true)
  }

  predicate Runs(d: Download, inputs: seq<Input>)
    decreases |inputs|
  {
    inputs == [] || (Enabled(d, inputs[0]) && Runs(Step(d, inputs[0]), inputs[1..]))
  }

  function Run(d: Download, inputs: seq<Input>): Download
    requires Runs(d, inputs)
    decreases |inputs|
  {
    if inputs == [] then d else Run(Step(d, inputs[0]), inputs[1..])
  }

  // Every successful reply is the server's answer for its chunk.
  predicate AnsweredBy(server: string -> UserKeys, chunks: seq<seq<string>>, inputs: seq<Input>) {
    forall i | i in inputs :: Answered(server, chunks, i)
  }

  predicate Answered(server: string -> UserKeys, chunks: seq<seq<string>>, i: Input) {
    i.ChunkReply? && i.chunk < |chunks| && i.reply.Success? ==> i.reply.value == Answer(server, chunks[i.chunk])
  }

  predicate Below(order: seq<nat>, n: nat) { forall j | 0 <= j < |order| :: order[j] < n }

  function Asked(chunks: seq<seq<string>>, order: seq<nat>): seq<string>
    requires Below(order, |chunks|)
  {
    if order == [] then [] else Asked(chunks, order[..|order|-1]) + chunks[order[|order|-1]]
  }

  // What the responses so far amount to: the answer for the users of the chunks that replied, unless one failed.
  ghost predicate Gathered(responses: seq<Reply>, asked: seq<string>, server: string -> UserKeys) {
    var r := Reduced(responses);
    r.Success? ==> r.value == if responses == [] then EMPTY else Answer(server, asked)
  }

  // What holds at every moment of a chunked download.
  ghost predicate Inv(d: Download, server: string -> UserKeys) {
    && !d.direct
    && NoDup(d.order) && Below(d.order, |d.chunks|) && |d.responses| == |d.order|
    && Gathered(d.responses, Asked(d.chunks, d.order), server)
    && (d.notified ==> |d.order| == |d.chunks|)
    && (d.completions == [] || d.completions == [Reduced(d.responses)])
    && (d.completions != [] ==> d.notified)
    && (d.notified && d.completions == [] ==> d.cancelled)
  }

  lemma GatheredNext(responses: seq<Reply>, asked: seq<string>, chunk: seq<string>, reply: Reply,
                     server: string -> UserKeys)
    requires Gathered(responses, asked, server) && (responses == [] ==> asked == [])
    requires reply.Success? ==> reply.value == Answer(server, chunk)
    ensures Gathered(responses + [reply], asked + chunk, server)
  {
    assert (responses + [reply])[..|responses|] == responses;
    if reply.Success? && Reduced(responses).Success? {
      AnswersAdd(server, asked, chunk);
      if responses == [] { NothingFirst(server, chunk); }
    }
  }

  // The empty response stands for the answer about nobody.
  lemma NothingFirst(server: string -> UserKeys, chunk: seq<string>)
    ensures Plus(EMPTY, Answer(server, chunk)) == Plus(Answer(server, []), Answer(server, chunk))
  {
  }

  lemma ReplyInv(d: Download, chunk: nat, reply: Reply, server: string -> UserKeys)
    requires Inv(d, server) && Enabled(d, ChunkReply(chunk, reply))
    requires Answered(server, d.chunks, ChunkReply(chunk, reply))
    ensures Inv(Step(d, ChunkReply(chunk, reply)), server)
  {
    if d.notified { AllPresent(d.order, |d.chunks|, chunk); }
    assert (d.order + [chunk])[..|d.order|] == d.order;
    GatheredNext(d.responses, Asked(d.chunks, d.order), d.chunks[chunk], reply, server);
  }

  lemma StepInv(d: Download, input: Input, server: string -> UserKeys)
    requires Inv(d, server) && Enabled(d, input) && Answered(server, d.chunks, input)
    ensures Inv(Step(d, input), server)
  {
    if input.ChunkReply? { ReplyInv(d, input.chunk, input.reply, server); }
  }

  // A duplicate-free list of numbers below n is no longer than n, and at length n it has them all.
  lemma Pigeonhole(order: seq<nat>, n: nat)
    requires NoDup(order) && Below(order, n)
    ensures |order| <= n
  {
    if n == 0 {
      assert forall j | 0 <= j < |order| :: order[j] < 0;
    } else {
      var i := FirstIndex(order, (x: nat) => x == n - 1);
      if i < |order| {
        Pigeonhole(order[..i] + order[i+1..], n - 1);
      } else {
        Pigeonhole(order, n - 1);
      }
    }
  }

  lemma AllPresent(order: seq<nat>, n: nat, k: nat)
    requires NoDup(order) && |order| == n && k < n && Below(order, n)
    ensures k in order
  {
    if k !in order {
      Pigeonhole(order + [k], n);
    }
  }

  lemma {:induction false} RunInv(d: Download, inputs: seq<Input>, server: string -> UserKeys)
    requires Inv(d, server) && Runs(d, inputs) && AnsweredBy(server, d.chunks, inputs)
    ensures Inv(Run(d, inputs), server)
    ensures Run(d, inputs).chunks == d.chunks
    decreases |inputs|
  {
    if inputs != [] {
      assert inputs[0] in inputs;
      assert forall i | i in inputs[1..] :: i in inputs;
      StepInv(d, inputs[0], server);
      RunInv(Step(d, inputs[0]), inputs[1..], server);
    }
  }

  lemma {:induction false} AskedMembers(chunks: seq<seq<string>>, order: seq<nat>, user: string)
    requires Below(order, |chunks|)
    ensures user in Asked(chunks, order) <==> exists i :: i in order && user in chunks[i]
  {
    if order != [] {
      AskedMembers(chunks, order[..|order|-1], user);
    }
  }

  // All chunks were asked for, so all users were.
  lemma AllAsked(chunks: seq<seq<string>>, order: seq<nat>, user: string)
    requires NoDup(order) && |order| == |chunks| && Below(order, |chunks|)
    ensures user in Asked(chunks, order) <==> user in Flatten(chunks)
  {
    AskedMembers(chunks, order, user);
    FlattenMembers(chunks, user);
    forall i | 0 <= i < |chunks| ensures i in order { AllPresent(order, |chunks|, i); }
  }

  // For every order of completion: at most one callback, only when every chunk has replied; success only if all
  // chunks succeeded, and then with the answer to one request for the whole list; none if cancelled before.
  lemma ChunksRefineOneRequest(users: seq<string>, chunkSize: int, inputs: seq<Input>, server: string -> UserKeys)
    requires 0 < chunkSize < |users|
    requires Runs(Start(users, chunkSize), inputs) && AnsweredBy(server, Start(users, chunkSize).chunks, inputs)
    ensures
      var d := Run(Start(users, chunkSize), inputs);
      && |d.completions| <= 1
      && (d.completions != [] ==> |d.order| == |d.chunks|)
      && (d.notified && !d.cancelled ==> |d.completions| == 1)
      && (d.completions != [] && d.completions[0].Success? ==> d.completions[0].value == Answer(server, users))
      && (d.completions != [] ==> (d.completions[0].Success? <==> forall r | r in d.responses :: r.Success?))
  {
    var start := Start(users, chunkSize);
    var d := Run(start, inputs);
    RunInv(start, inputs, server);
    ReducedOutcome(d.responses);
    ChunksPartition(users, chunkSize);
    if d.completions != [] && d.completions[0].Success? {
      assert d.chunks != [];
      forall user ensures user in Asked(d.chunks, d.order) <==> user in users { AllAsked(d.chunks, d.order, user); }
      AnswerBySet(server, Asked(d.chunks, d.order), users);
    }
  }

  lemma {:induction false} CancelledStaysSilent(d: Download, inputs: seq<Input>)
    requires !d.direct && d.cancelled && Runs(d, inputs)
    ensures Run(d, inputs).completions == d.completions
    decreases |inputs|
  {
    if inputs != [] { CancelledStaysSilent(Step(d, inputs[0]), inputs[1..]); }
  }

  // A run in which every chunk is answered, and the group then notifies.
  ghost predicate Honest(users: seq<string>, chunkSize: int, inputs: seq<Input>, server: string -> UserKeys)
    requires |users| <= chunkSize || chunkSize != 0
  {
    var start := Start(users, chunkSize);
    && Runs(start, inputs) && AnsweredBy(server, start.chunks, inputs)
    && (forall i | i in inputs :: !i.Cancel? && (i.ChunkReply? ==> i.reply.Success?))
    && (Run(start, inputs).direct || Run(start, inputs).notified)
    && |Run(start, inputs).order| == |start.chunks|
  }

  // Whether the users were chunked or not, an honest run ends with the whole answer iff the list fits in one request
  // or the chunk size is positive. A negative size sends no request at all and reports an empty success.
  lemma WholeAnswerIffPositive(users: seq<string>, chunkSize: int, inputs: seq<Input>, server: string -> UserKeys)
    requires |users| <= chunkSize || chunkSize != 0
    requires Honest(users, chunkSize, inputs, server)
    ensures Run(Start(users, chunkSize), inputs).completions == [Success(Answer(server, users))] <==>
            |users| <= chunkSize || chunkSize > 0
  {
    var start := Start(users, chunkSize);
    if |users| <= chunkSize {
      DirectRun(users, chunkSize, inputs, server);
    } else {
      var d := Run(start, inputs);
      NeverCancelled(start, inputs);
      RunInv(start, inputs, server);
      if chunkSize > 0 {
        ChunksRefineOneRequest(users, chunkSize, inputs, server);
      }
    }
  }

  lemma {:induction false} NeverCancelled(d: Download, inputs: seq<Input>)
    requires Runs(d, inputs) && !d.cancelled
    requires forall i | i in inputs :: !i.Cancel? && (i.ChunkReply? ==> i.reply.Success?)
    requires forall r | r in d.responses :: r.Success?
    ensures !Run(d, inputs).cancelled
    ensures forall r | r in Run(d, inputs).responses :: r.Success?
    decreases |inputs|
  {
    if inputs != [] {
      assert inputs[0] in inputs;
      NeverCancelled(Step(d, inputs[0]), inputs[1..]);
    }
  }

  lemma DirectRun(users: seq<string>, chunkSize: int, inputs: seq<Input>, server: string -> UserKeys)
    requires |users| <= chunkSize && Honest(users, chunkSize, inputs, server)
    ensures Run(Start(users, chunkSize), inputs).completions == [Success(Answer(server, users))]
  {
    var start := Start(users, chunkSize);
    assert inputs != [];
    assert inputs[0] in inputs && inputs[0].ChunkReply?;
    var next := Step(start, inputs[0]);
    assert Runs(next, inputs[1..]) && 0 in next.order;
    assert forall i | i in inputs[1..] :: i in inputs;
    if inputs[1..] != [] {
      assert false;
    }
  }

  // ---------- The operation ----------

  class ChunkedDownload {
    const direct: bool
    const chunks: seq<seq<string>>
    var arrived: seq<nat>
    var responses: seq<Reply>
    var notified: bool
    var isCancelled: bool
    var completions: seq<Reply>

    function State(): Download
      reads this
    {
      Download(direct, chunks, arrived, responses, notified, isCancelled, completions)
    }

    // A chunk size of zero traps in `stride` unless there is nobody to ask for.
    constructor (users: seq<string>, chunkSize: int)
      requires |users| <= chunkSize || chunkSize != 0
      ensures State() == Start(users, chunkSize)
    {
      if |users| <= chunkSize {
        direct, chunks := true, [users];
      } else {
        direct, chunks := false, Chunked(users, chunkSize);
      }
      arrived, responses, notified, isCancelled, completions := [], [], false, false, [];
    }

    method OnReply(chunk: nat, reply: Reply)
      requires Enabled(State(), ChunkReply(chunk, reply))
      modifies this
      ensures State() == Step(old(State()), ChunkReply(chunk, reply))
    {
      arrived := arrived + [chunk];
      if direct {
        completions := completions + [reply];
      } else {
        responses := responses + [reply];
      }
    }

    method OnGroupEmpty()
      requires Enabled(State(), Notify)
      modifies this
      ensures State() == Step(old(State()), Notify)
    {
      notified := true;
      if isCancelled { return; }
      var response: Reply := Success(EMPTY);
      for i := 0 to |responses|
        invariant response == Reduced(responses[..i])
        invariant responses == old(responses) && completions == old(completions) && notified && !isCancelled
        invariant arrived == old(arrived)
      {
        assert responses[..i+1][..i] == responses[..i];
        response := PlusReply(response, responses[i]);
      }
      assert responses[..|responses|] == responses;
      completions := completions + [response];
    }

    method CancelOperation()
      requires !direct
      modifies this
      ensures State() == Step(old(State()), Cancel)
    {
      isCancelled := true;
    }
  }
}

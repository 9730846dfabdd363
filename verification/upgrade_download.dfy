/**
 The resumable download of an upgrade package (`downloadUpgradeBinary`).

 The disk holds the partial file and the target. The world is a function from the number of the
 attempt to what happens in it, and the origin's reply is a function of the offset asked for, so
 quantifying over worlds quantifies over every pattern of cuts, refusals and restarts.
 */
module UpgradeDownload {
  import opened Text
  import Utf8

  type Bytes = Utf8.Bytes

  const MAX_ATTEMPTS := 6
  const PARTIAL_CONTENT := 206
  const RANGE_NOT_SATISFIABLE := 416

  /** What the server told the client about the package. `sha256 == ""` and `size <= 0` mean unknown. */
  datatype Command = Command(size: int, sha256: string)

  datatype Disk = Disk(part: Option<Bytes>, target: Option<Bytes>)

  /** One reply. `body` reached both the file and the hash; `torn` is what a failed write still left in
      the file without reaching the hash. `contentLength == -1` is an unknown length. */
  datatype Reply =
    | Unreachable
    | Response(status: nat, contentRange: string, contentLength: int,
               body: Bytes, torn: Bytes, copyFails: bool, syncFails: bool, closeFails: bool)

  /** One attempt: the origin, and the local calls that may fail. */
  datatype Round = Round(badRequest: bool, serve: nat -> Reply, removeFails: bool, openFails: bool, statFails: bool)

  datatype Start = Start(renameFails: bool, loadFails: bool, removeFails: bool)

  datatype Finish = Finish(statFails: bool, removeFails: bool, promoteFails: bool)

  /** The variables of the attempt loop. `hashed` is what has been written to the running hash. */
  datatype Session = Session(attempt: nat, disk: Disk, downloaded: nat, hashed: Bytes, total: int)

  datatype Verdict = Retry | Done | GiveUp(retryable: bool) | Abort

  datatype Outcome = Succeeded | Failed(retryable: bool)

  function Content(f: Option<Bytes>): Bytes {
    match f case None => [] case Some(b) => b
  }

  /** parseUpgradeContentRangeTotal */
  function ContentRangeTotal(header: string): Option<int> {
    var value := TrimSpace(header);
    match LastSlash(value)
    case None => None
    case Some(i) =>
      if i + 1 >= |value| then None
      else match ParseInt64(TrimSpace(value[i + 1..]))
        case Some(n) => if n > 0 then Some(n) else None
        case None => None
  }

  function LastSlash(s: string): (r: Option<nat>)
    ensures r.Some? ==> r.value < |s| && s[r.value] == '/' && forall k | r.value < k < |s| :: s[k] != '/'
    ensures r.None? ==> '/' !in s
  {
    if s == "" then None
    else if s[|s| - 1] == '/' then Some(|s| - 1)
    else LastSlash(s[..|s| - 1])
  }

  /** The total that a reply announces, or the one known so far. */
  function ResponseTotal(total: int, downloaded: nat, r: Reply): int
    requires r.Response?
  {
    var announced := match ContentRangeTotal(r.contentRange) case Some(n) => n case None => total;
    if announced <= 0 && r.contentLength > 0 then
      if r.status == PARTIAL_CONTENT then downloaded + r.contentLength else r.contentLength
    else announced
  }

  function UpdateTotal(total: int, downloaded: nat, r: Reply): int
    requires r.Response?
  {
    var t := ResponseTotal(total, downloaded, r);
    if t > 0 then t else total
  }

  predicate RetryableStatus(status: nat) {
    status == 408 || status == 425 || status == 429 || 500 <= status <= 599
  }

  /** retryUpgradeDownload: another attempt, unless this was the last. */
  function AfterFailure(attempt: nat, retryable: bool): Verdict {
    if attempt < MAX_ATTEMPTS - 1 then Retry else GiveUp(retryable)
  }

  /** One turn of the attempt loop. */
  function Attempt(round: Round, s: Session): (Session, Verdict) {
    if round.badRequest then (s, Abort) else
    match round.serve(s.downloaded)
    case Unreachable => (s, AfterFailure(s.attempt, true))
    case Response(status, _, _, body, torn, copyFails, syncFails, closeFails) =>
      var reply := round.serve(s.downloaded);
      var s1 := s.(total := UpdateTotal(s.total, s.downloaded, reply));
      if status == RANGE_NOT_SATISFIABLE && s1.total > 0 && s1.downloaded == s1.total then
        (s1, Done)
      else if status == RANGE_NOT_SATISFIABLE then
        if round.removeFails then (s1, Abort)
        else (s1.(disk := s1.disk.(part := None), downloaded := 0, hashed := []), AfterFailure(s.attempt, true))
      else if status >= 300 then
        (s1, if RetryableStatus(status) then AfterFailure(s.attempt, true) else GiveUp(false))
      else
        var append := s1.downloaded > 0 && status == PARTIAL_CONTENT;
        var s2 := if s1.downloaded > 0 && !append then s1.(downloaded := 0, hashed := []) else s1;
        if round.openFails then (s2, Abort)
        else
          var base := if append then Content(s2.disk.part) else [];
          var file := base + body + torn;
          var s3 := s2.(disk := s2.disk.(part := Some(file)), hashed := s2.hashed + body);
          if round.statFails then (s3, Abort)
          else
            var s4 := s3.(downloaded := |file|);
            (s4, if copyFails || torn != [] || syncFails || closeFails || (s4.total > 0 && |file| != s4.total)
                 then AfterFailure(s.attempt, true) else Done)
  }

  /** At most `turns` turns of the attempt loop, which a verdict other than Retry ends. */
  function Attempts(turns: nat, world: nat -> Round, s: Session): (Session, Verdict) {
    if turns == 0 then (s, Retry)
    else
      var (s', v) := Attempt(world(s.attempt), s);
      if v == Retry then Attempts(turns - 1, world, s'.(attempt := s.attempt + 1)) else (s', v)
  }

  /** The turns that are left. */
  function TurnsLeft(s: Session): nat {
    if s.attempt < MAX_ATTEMPTS then MAX_ATTEMPTS - s.attempt else 0
  }

  /** Everything before the loop: `Failure` is an early error return. */
  datatype Prepared = Failure(disk: Disk) | Ready(session: Session)

  function Prepare(cmd: Command, disk: Disk, start: Start): Prepared {
    if disk.part.None? && disk.target.Some? && start.renameFails then Failure(disk)
    else
      var d := if disk.part.None? && disk.target.Some? then Disk(disk.target, None) else disk;
      if start.loadFails then Failure(d)
      else
        var loaded := Content(d.part);
        if cmd.size > 0 && |loaded| > cmd.size then
          if start.removeFails then Failure(d)
          else Ready(Session(0, d.(part := None), 0, [], cmd.size))
        else Ready(Session(0, d, |loaded|, loaded, cmd.size))
  }

  function LowerAscii(c: char): char {
    if 'A' <= c <= 'Z' then (c as int + 32) as char else c
  }

  /** strings.EqualFold for hexadecimal digests. */
  predicate EqualFold(a: string, b: string) {
    |a| == |b| && forall i | 0 <= i < |a| :: LowerAscii(a[i]) == LowerAscii(b[i])
  }

  /** Verification and promotion after the loop. */
  function Conclude(cmd: Command, hex: Bytes -> string, s: Session, verdict: Verdict, finish: Finish): (Disk, Outcome) {
    if verdict.GiveUp? then (s.disk, Failed(verdict.retryable))
    else if verdict != Done || finish.statFails || s.disk.part.None? then (s.disk, Failed(false))
    else if cmd.size > 0 && |s.disk.part.value| != cmd.size then (s.disk, Failed(false))
    else if cmd.sha256 != "" && !EqualFold(hex(s.hashed), cmd.sha256) then
      (if finish.removeFails then s.disk else s.disk.(part := None), Failed(false))
    else if finish.promoteFails then (s.disk, Failed(false))
    else (Disk(None, s.disk.part), Succeeded)
  }

  /** One complete call. */
  function Download(cmd: Command, hex: Bytes -> string, disk: Disk, start: Start, world: nat -> Round,
                    finish: Finish): (Disk, Outcome)
  {
    match Prepare(cmd, disk, start)
    case Failure(d) => (d, Failed(false))
    case Ready(s) =>
      var (s', v) := Attempts(TurnsLeft(s), world, s);
      Conclude(cmd, hex, s', v, finish)
  }

  // ---------------------------------------------------------------- what every attempt keeps

  /** The loop's size counter is the size of the partial file. */
  predicate SizeInStep(s: Session) {
    s.downloaded == |Content(s.disk.part)|
  }

  /** The bytes hashed are the bytes in the partial file. */
  predicate HashInStep(s: Session) {
    s.hashed == Content(s.disk.part)
  }

  /** Never more hashed than stored, so an empty file has an empty hash. */
  predicate HashBehind(s: Session) {
    |s.hashed| <= |Content(s.disk.part)|
  }

  predicate Copies(round: Round, s: Session) {
    !round.badRequest && round.serve(s.downloaded).Response? && round.serve(s.downloaded).status < 300
      && !round.openFails
  }

  lemma AttemptKeepsSizes(round: Round, s: Session)
    requires SizeInStep(s) && HashBehind(s)
    ensures var (s', v) := Attempt(round, s);
            (v != Abort ==> SizeInStep(s')) && (v != Abort ==> HashBehind(s'))
  {
  }

  /** A hash in step falls out of step exactly in an attempt that leaves torn bytes behind. */
  lemma HashFallsBehindOnlyByTornWrites(round: Round, s: Session)
    requires SizeInStep(s) && HashInStep(s)
    ensures var (s', v) := Attempt(round, s);
            v != Abort ==>
              (HashInStep(s') <==> !(Copies(round, s) && round.serve(s.downloaded).torn != []))
  {
  }

  predicate IsPrefix(f: Option<Bytes>, c: Bytes) {
    f.Some? ==> f.value <= c
  }

  predicate DiskIsPrefix(d: Disk, c: Bytes) {
    IsPrefix(d.part, c) && IsPrefix(d.target, c)
  }

  /** The reply of an origin that has the fixed content c: a partial reply continues at the offset asked
      for, any other success starts from the beginning, and either may stop anywhere. Errors, refused
      ranges and the announced lengths are not restricted. */
  predicate HonestReply(c: Bytes, offset: nat, r: Reply) {
    r.Unreachable? || r.status >= 300 ||
    if offset > 0 && r.status == PARTIAL_CONTENT then offset <= |c| && r.body + r.torn <= c[offset..]
    else r.body + r.torn <= c
  }

  ghost predicate HonestWorld(c: Bytes, world: nat -> Round) {
    forall n: nat, offset: nat :: HonestReply(c, offset, world(n).serve(offset))
  }

  lemma AttemptKeepsPrefix(c: Bytes, round: Round, s: Session)
    requires SizeInStep(s) && DiskIsPrefix(s.disk, c)
    requires HonestReply(c, s.downloaded, round.serve(s.downloaded))
    ensures var (s', v) := Attempt(round, s);
            DiskIsPrefix(s'.disk, c) && s'.disk.target == s.disk.target
  {
    if Copies(round, s) {
      var r := round.serve(s.downloaded);
      var file := (if s.downloaded > 0 && r.status == PARTIAL_CONTENT then Content(s.disk.part) else []) + r.body
        + r.torn;
      if s.downloaded > 0 && r.status == PARTIAL_CONTENT {
        var base := Content(s.disk.part);
        assert c == base + c[|base|..];
        assert file == base + (r.body + r.torn);
      } else {
        assert file == r.body + r.torn;
      }
      assert file <= c;
    }
  }

  /** Also in the middle of the loop, where a killed process leaves the disk. */
  lemma {:induction false} AttemptsKeepPrefix(c: Bytes, turns: nat, world: nat -> Round, s: Session)
    requires SizeInStep(s) && HashBehind(s) && DiskIsPrefix(s.disk, c) && HonestWorld(c, world)
    ensures var (s', v) := Attempts(turns, world, s);
            DiskIsPrefix(s'.disk, c) && s'.disk.target == s.disk.target
  {
    if turns > 0 {
      assert HonestReply(c, s.downloaded, world(s.attempt).serve(s.downloaded));
      AttemptKeepsPrefix(c, world(s.attempt), s);
      AttemptKeepsSizes(world(s.attempt), s);
      var (s', v) := Attempt(world(s.attempt), s);
      if v == Retry {
        AttemptsKeepPrefix(c, turns - 1, world, s'.(attempt := s.attempt + 1));
      }
    }
  }

  /** The loop ends within its turns. */
  lemma {:induction false} AttemptsEnd(turns: nat, world: nat -> Round, s: Session)
    requires s.attempt < MAX_ATTEMPTS && turns == TurnsLeft(s)
    ensures Attempts(turns, world, s).1 != Retry
  {
    var (s', v) := Attempt(world(s.attempt), s);
    if v == Retry {
      AttemptsEnd(turns - 1, world, s'.(attempt := s.attempt + 1));
    }
  }

  // ---------------------------------------------------------------- an origin with one fixed content

  lemma PrepareKeepsPrefix(c: Bytes, cmd: Command, disk: Disk, start: Start)
    requires DiskIsPrefix(disk, c)
    ensures match Prepare(cmd, disk, start)
            case Failure(d) => DiskIsPrefix(d, c)
            case Ready(s) => DiskIsPrefix(s.disk, c) && SizeInStep(s) && HashInStep(s)
  {
  }

  /** The whole content at the target, and nothing left over. */
  predicate Holds(d: Disk, c: Bytes) {
    d.part.None? && d.target.Some? && d.target.value == c
  }

  /** Resume correctness: a partial file stays a prefix of the content, and success leaves the whole
      content at the target and no partial file. */
  lemma DownloadDelivers(c: Bytes, cmd: Command, hex: Bytes -> string, disk: Disk, start: Start, world: nat -> Round,
                         finish: Finish)
    requires cmd.size == |c| && DiskIsPrefix(disk, c) && HonestWorld(c, world)
    ensures var (d, outcome) := Download(cmd, hex, disk, start, world, finish);
            DiskIsPrefix(d, c) && (outcome == Succeeded ==> Holds(d, c))
  {
    PrepareKeepsPrefix(c, cmd, disk, start);
    var p := Prepare(cmd, disk, start);
    if p.Ready? {
      AttemptsKeepPrefix(c, TurnsLeft(p.session), world, p.session);
      var (s, v) := Attempts(TurnsLeft(p.session), world, p.session);
      ConcludeKeepsPrefix(c, cmd, hex, s, v, finish);
      assert Download(cmd, hex, disk, start, world, finish) == Conclude(cmd, hex, s, v, finish);
    }
  }

  lemma ConcludeKeepsPrefix(c: Bytes, cmd: Command, hex: Bytes -> string, s: Session, verdict: Verdict, finish: Finish)
    requires cmd.size == |c| && DiskIsPrefix(s.disk, c)
    ensures var (d, outcome) := Conclude(cmd, hex, s, verdict, finish);
            DiskIsPrefix(d, c) && (outcome == Succeeded ==> Holds(d, c))
  {
  }

  /** A process life: a call that runs to its end, a call killed in attempt `attempts` (the bytes it had
      received are the ones the world says), or the removal of an installed package. */
  datatype Life =
    | Complete(start: Start, world: nat -> Round, finish: Finish)
    | Killed(start: Start, world: nat -> Round, attempts: nat)
    | Installed

  function Live(cmd: Command, hex: Bytes -> string, disk: Disk, life: Life): Disk {
    match life
    case Complete(start, world, finish) => Download(cmd, hex, disk, start, world, finish).0
    case Killed(start, world, attempts) =>
      (match Prepare(cmd, disk, start)
       case Failure(d) => d
       case Ready(s) => Attempts(attempts, world, s).0.disk)
    case Installed => disk.(target := None)
  }

  function Lives(cmd: Command, hex: Bytes -> string, disk: Disk, lives: seq<Life>): Disk {
    if lives == [] then disk
    else Live(cmd, hex, Lives(cmd, hex, disk, lives[..|lives| - 1]), lives[|lives| - 1])
  }

  ghost predicate HonestLife(c: Bytes, life: Life) {
    !life.Installed? ==> HonestWorld(c, life.world)
  }

  /** Whatever processes were killed before it, a call that succeeds leaves exactly the content. */
  lemma {:induction false} ResumeAfterAnyLives(c: Bytes, cmd: Command, hex: Bytes -> string, disk: Disk,
                                               lives: seq<Life>, start: Start, world: nat -> Round, finish: Finish)
    requires cmd.size == |c| && DiskIsPrefix(disk, c) && HonestWorld(c, world)
    requires forall life | life in lives :: HonestLife(c, life)
    ensures DiskIsPrefix(Lives(cmd, hex, disk, lives), c)
    ensures var (d, outcome) := Download(cmd, hex, Lives(cmd, hex, disk, lives), start, world, finish);
            DiskIsPrefix(d, c) && (outcome == Succeeded ==> Holds(d, c))
    decreases |lives|
  {
    if lives != [] {
      var front, last := lives[..|lives| - 1], lives[|lives| - 1];
      assert HonestLife(c, last);
      ResumeAfterAnyLives(c, cmd, hex, disk, front, start, world, finish);
      var before := Lives(cmd, hex, disk, front);
      match last
      case Complete(start', world', finish') => DownloadDelivers(c, cmd, hex, before, start', world', finish');
      case Killed(start', world', attempts) =>
        PrepareKeepsPrefix(c, cmd, before, start');
        var p := Prepare(cmd, before, start');
        if p.Ready? {
          AttemptsKeepPrefix(c, attempts, world', p.session);
        }
      case Installed =>
    }
    DownloadDelivers(c, cmd, hex, Lives(cmd, hex, disk, lives), start, world, finish);
  }

  // ---------------------------------------------------------------- any origin: what the digest vouches for

  /** Whether no torn bytes are in the partial file after the loop, given whether they are before it: a
      resumed copy keeps them, a fresh one or a refused range throws them away. */
  predicate Clean(turns: nat, world: nat -> Round, s: Session, clean: bool) {
    if turns == 0 then clean
    else
      var round := world(s.attempt);
      var (s', v) := Attempt(round, s);
      var clean' := CleanAfter(round, s, clean);
      if v == Retry then Clean(turns - 1, world, s'.(attempt := s.attempt + 1), clean') else clean'
  }

  predicate CleanAfter(round: Round, s: Session, clean: bool) {
    var r := round.serve(s.downloaded);
    if Copies(round, s) then r.torn == [] && (s.downloaded > 0 && r.status == PARTIAL_CONTENT ==> clean)
    else Attempt(round, s).0.downloaded == 0 || clean
  }

  /** The hash covers the partial file if and only if no torn bytes are in it. */
  lemma {:induction false} HashCoversFileIffClean(turns: nat, world: nat -> Round, s: Session)
    requires SizeInStep(s) && HashBehind(s)
    ensures var (s', v) := Attempts(turns, world, s);
            v != Abort ==> SizeInStep(s') && (HashInStep(s') <==> Clean(turns, world, s, HashInStep(s)))
  {
    if turns > 0 {
      var round := world(s.attempt);
      AttemptKeepsSizes(round, s);
      AttemptCoversFile(round, s);
      var (s', v) := Attempt(round, s);
      if v == Retry {
        HashCoversFileIffClean(turns - 1, world, s'.(attempt := s.attempt + 1));
      }
    }
  }

  lemma AttemptCoversFile(round: Round, s: Session)
    requires SizeInStep(s) && HashBehind(s)
    ensures var (s', v) := Attempt(round, s);
            v != Abort ==> (HashInStep(s') <==> CleanAfter(round, s, HashInStep(s)))
  {
  }

  /** Success vouches for the file that was promoted: its size is the size given, and the digest given is
      that of the bytes hashed, which are the bytes promoted if and only if none of them are torn. */
  lemma SuccessVerifiesTarget(cmd: Command, hex: Bytes -> string, disk: Disk, start: Start, world: nat -> Round,
                              finish: Finish)
    ensures var (d, outcome) := Download(cmd, hex, disk, start, world, finish);
            outcome == Succeeded ==>
              && d.part.None? && d.target.Some?
              && (cmd.size > 0 ==> |d.target.value| == cmd.size)
              && Prepare(cmd, disk, start).Ready?
              && var s := Prepare(cmd, disk, start).session;
                 var hashed := Attempts(TurnsLeft(s), world, s).0.hashed;
                 && (cmd.sha256 != "" ==> EqualFold(hex(hashed), cmd.sha256))
                 && (hashed == d.target.value <==> Clean(TurnsLeft(s), world, s, true))
  {
    var p := Prepare(cmd, disk, start);
    if p.Ready? {
      HashCoversFileIffClean(TurnsLeft(p.session), world, p.session);
    }
  }

  ghost predicate WholeWrites(world: nat -> Round) {
    forall n: nat, offset: nat :: WholeReply(world(n).serve(offset))
  }

  predicate WholeReply(r: Reply) {
    r.Response? ==> r.torn == []
  }

  /** With all-or-nothing writes the promoted file has the digest asked for, whatever the origin sent. */
  lemma WholeWritesPromoteTheDigest(cmd: Command, hex: Bytes -> string, disk: Disk, start: Start, world: nat -> Round,
                                    finish: Finish)
    requires WholeWrites(world) && cmd.sha256 != ""
    ensures var (d, outcome) := Download(cmd, hex, disk, start, world, finish);
            outcome == Succeeded ==> d.target.Some? && EqualFold(hex(d.target.value), cmd.sha256)
  {
    SuccessVerifiesTarget(cmd, hex, disk, start, world, finish);
    var p := Prepare(cmd, disk, start);
    if p.Ready? {
      WholeWritesAreClean(TurnsLeft(p.session), world, p.session);
    }
  }

  lemma WholeTurnIsClean(world: nat -> Round, s: Session)
    requires WholeWrites(world)
    ensures CleanAfter(world(s.attempt), s, true)
  {
  }

  lemma {:induction false} WholeWritesAreClean(turns: nat, world: nat -> Round, s: Session)
    requires WholeWrites(world)
    ensures Clean(turns, world, s, true)
  {
    if turns > 0 {
      WholeTurnIsClean(world, s);
      var next := Attempt(world(s.attempt), s).0.(attempt := s.attempt + 1);
      WholeWritesAreClean(turns - 1, world, next);
    }
  }

  function TornRound(n: nat): Round {
    if n == 0 then Round(false, offset => Response(200, "", -1, [], [1], true, false, false), false, false, false)
    else Round(false, offset => Response(206, "", -1, [2], [], false, false, false), false, false, false)
  }

  /** Without that assumption it need not: one torn byte, then a resumed attempt, and a file is promoted
      whose digest is not the one asked for. */
  lemma TornWritePromotesOtherBytes(hex: Bytes -> string)
    requires hex([2]) == "02" && hex([1, 2]) == "0102"
    ensures Download(Command(0, "02"), hex, Disk(None, None), Start(false, false, false), TornRound,
                     Finish(false, false, false))
              == (Disk(None, Some([1, 2])), Succeeded)
    ensures !EqualFold(hex([1, 2]), "02")
  {
    var s0 := Session(0, Disk(None, None), 0, [], 0);
    var s1 := Session(1, Disk(Some([1]), None), 1, [], 0);
    var s2 := Session(1, Disk(Some([1, 2]), None), 2, [2], 0);
    TornTurns();
    assert s1.(attempt := 0).(attempt := 1) == s1;
    TurnUnrolled(TornRound, s1);
    TurnUnrolled(TornRound, s0);
    assert !EqualFold("0102", "02") && EqualFold("02", "02");
    assert Conclude(Command(0, "02"), hex, s2, Done, Finish(false, false, false))
           == (Disk(None, Some([1, 2])), Succeeded);
  }

  lemma TornTurns()
    ensures var s1 := Session(1, Disk(Some([1]), None), 1, [], 0);
            Attempt(TornRound(0), Session(0, Disk(None, None), 0, [], 0)) == (s1.(attempt := 0), Retry)
            && Attempt(TornRound(1), s1) == (Session(1, Disk(Some([1, 2]), None), 2, [2], 0), Done)
  {
    assert [] + [] + [1] == [1];
    assert [1] + [2] + [] == [1, 2];
    assert [] + [2] == [2];
    assert ContentRangeTotal("").None?;
  }

  // ---------------------------------------------------------------- the download does complete

  /** The length of a successful reply, if it states one, is what is left of the content. */
  predicate TrueLength(c: Bytes, offset: nat, r: Reply)
    requires r.Response?
  {
    r.status < 300 && r.contentLength > 0 ==>
      |c| == if r.status == PARTIAL_CONTENT then offset + r.contentLength else r.contentLength
  }

  /** An error reply that states the length of its own body, and no total. */
  predicate Misleads(c: Bytes, r: Reply)
    requires r.Response?
  {
    r.status >= 300 && ContentRangeTotal(r.contentRange).None? && r.contentLength > 0 && r.contentLength != |c|
  }

  /** While the size of the package is not known, a reply with true totals and lengths leaves it unknown or makes
      it the true one if and only if it is no error reply that states the length of its own body. */
  lemma UnknownSizeStaysTrueIff(c: Bytes, total: int, downloaded: nat, r: Reply)
    requires total <= 0 && r.Response? && TrueLength(c, downloaded, r)
    requires ContentRangeTotal(r.contentRange) in {None, Some(|c|)}
    ensures UpdateTotal(total, downloaded, r) in {total, |c|} <==> !Misleads(c, r)
  {
  }

  /** Without a total, the end of a body is all that says that it is complete. */
  predicate EndsComplete(c: Bytes, offset: nat, r: Reply)
    requires r.Response?
  {
    (r.status < 300 && ContentRangeTotal(r.contentRange).None? && r.contentLength <= 0
     && !r.copyFails && !r.syncFails && !r.closeFails)
    ==> Supplies(c, false, offset, r)
  }

  /** A reply that a completing run may see: honest, with true totals, whole writes and no final refusal. When
      the command gives no size, its lengths are true too, it does not mislead, and it ends complete. */
  predicate Patient(c: Bytes, sized: bool, offset: nat, r: Reply) {
    HonestReply(c, offset, r)
    && (r.Response? ==>
          r.torn == [] && ContentRangeTotal(r.contentRange) in {None, Some(|c|)}
          && (r.status >= 300 ==> r.status == RANGE_NOT_SATISFIABLE || RetryableStatus(r.status))
          && (!sized ==> TrueLength(c, offset, r) && !Misleads(c, r) && EndsComplete(c, offset, r)))
  }

  /** A reply that supplies all that is missing, or says truly that nothing is; a client that was given no size
      has to be told it with that. */
  predicate Supplies(c: Bytes, sized: bool, offset: nat, r: Reply) {
    r.Response? &&
    if r.status == RANGE_NOT_SATISFIABLE then offset == |c| && (sized || ContentRangeTotal(r.contentRange) == Some(|c|))
    else r.status < 300 && !r.copyFails && !r.syncFails && !r.closeFails
         && r.body == if offset > 0 && r.status == PARTIAL_CONTENT && offset <= |c| then c[offset..] else c
  }

  predicate Faultless(round: Round) {
    !round.badRequest && !round.removeFails && !round.openFails && !round.statFails
  }

  ghost predicate SuppliedBy(c: Bytes, sized: bool, round: Round) {
    forall offset: nat | offset <= |c| :: Supplies(c, sized, offset, round.serve(offset))
  }

  ghost predicate PatientWorld(c: Bytes, sized: bool, world: nat -> Round) {
    && (forall n: nat :: Faultless(world(n)))
    && (forall n: nat, offset: nat :: offset <= |c| ==> Patient(c, sized, offset, world(n).serve(offset)))
  }

  predicate OnCourse(c: Bytes, sized: bool, s: Session) {
    && (if sized then s.total == |c| > 0 else s.total <= 0 || s.total == |c|)
    && SizeInStep(s) && HashInStep(s) && DiskIsPrefix(s.disk, c)
  }

  lemma PatientTotal(c: Bytes, sized: bool, s: Session, r: Reply)
    requires r.Response? && OnCourse(c, sized, s) && Patient(c, sized, s.downloaded, r)
    ensures OnCourse(c, sized, s.(total := UpdateTotal(s.total, s.downloaded, r)))
  {
  }

  lemma PatientCopy(c: Bytes, sized: bool, round: Round, s: Session)
    requires OnCourse(c, sized, s) && Faultless(round) && Copies(round, s)
    requires Patient(c, sized, s.downloaded, round.serve(s.downloaded))
    ensures var (s', v) := Attempt(round, s);
            && OnCourse(c, sized, s') && s'.disk.part.Some?
            && (v == Done ==> s'.disk.part.value == c)
            && v in {Done, AfterFailure(s.attempt, true)}
            && (Supplies(c, sized, s.downloaded, round.serve(s.downloaded)) ==> v == Done)
  {
    var r := round.serve(s.downloaded);
    PatientTotal(c, sized, s, r);
    AttemptKeepsPrefix(c, round, s);
    HashFallsBehindOnlyByTornWrites(round, s);
    if s.downloaded > 0 && r.status == PARTIAL_CONTENT {
      assert Content(s.disk.part) + c[s.downloaded..] == c;
      assert Content(s.disk.part) + r.body + [] == Content(s.disk.part) + r.body;
    } else {
      assert [] + r.body + [] == r.body;
    }
  }

  lemma PatientAttempt(c: Bytes, sized: bool, round: Round, s: Session)
    requires OnCourse(c, sized, s) && Faultless(round)
    requires Patient(c, sized, s.downloaded, round.serve(s.downloaded))
    ensures var (s', v) := Attempt(round, s);
            && OnCourse(c, sized, s')
            && (v == Done ==> s'.disk.part == Some(c))
            && v in {Done, AfterFailure(s.attempt, true)}
            && (Supplies(c, sized, s.downloaded, round.serve(s.downloaded)) ==> v == Done)
  {
    if Copies(round, s) {
      PatientCopy(c, sized, round, s);
    } else if round.serve(s.downloaded).Response? {
      PatientTotal(c, sized, s, round.serve(s.downloaded));
      assert s.downloaded == |c| > 0 ==> s.disk.part.Some? && s.disk.part.value == c;
    }
  }

  lemma PatientTurn(c: Bytes, sized: bool, world: nat -> Round, s: Session, k: nat)
    requires OnCourse(c, sized, s) && PatientWorld(c, sized, world)
    requires s.attempt <= k < MAX_ATTEMPTS && SuppliedBy(c, sized, world(k))
    ensures var (s', v) := Attempt(world(s.attempt), s);
            && (v == Done || (v == Retry && s.attempt < k))
            && OnCourse(c, sized, s') && (v == Done ==> s'.disk.part == Some(c)) && s'.disk.target == s.disk.target
  {
    var round := world(s.attempt);
    assert Faultless(round) && Patient(c, sized, s.downloaded, round.serve(s.downloaded));
    PatientAttempt(c, sized, round, s);
    assert s.attempt == k ==> Supplies(c, sized, s.downloaded, round.serve(s.downloaded));
  }

  lemma {:induction false} PatientAttempts(c: Bytes, sized: bool, world: nat -> Round, s: Session, k: nat)
    requires OnCourse(c, sized, s) && PatientWorld(c, sized, world)
    requires s.attempt <= k < MAX_ATTEMPTS && SuppliedBy(c, sized, world(k))
    ensures var (s', v) := Attempts(TurnsLeft(s), world, s);
            v == Done && s'.disk == Disk(Some(c), s.disk.target) && s'.hashed == c
    decreases k - s.attempt
  {
    PatientTurn(c, sized, world, s, k);
    TurnUnrolled(world, s);
    var (s', v) := Attempt(world(s.attempt), s);
    if v == Retry {
      PatientAttempts(c, sized, world, s'.(attempt := s.attempt + 1), k);
    }
  }

  /** A call in which no local call fails. */
  function Fetch(cmd: Command, hex: Bytes -> string, disk: Disk, world: nat -> Round): (Disk, Outcome) {
    Download(cmd, hex, disk, Start(false, false, false), world, Finish(false, false, false))
  }

  /** What earlier calls have left to resume from: a part file, or else a target that was not installed. */
  function Leftover(disk: Disk): Option<Bytes> {
    if disk.part.Some? then disk.part else disk.target
  }

  /** Something to resume the content from, or something too large to be any of it. */
  predicate Resumable(c: Bytes, cmd: Command, disk: Disk) {
    || DiskIsPrefix(disk, c)
    || (cmd.size > 0 && |Content(Leftover(disk))| > cmd.size && (disk.part.Some? ==> IsPrefix(disk.target, c)))
  }

  /** An origin that in some attempt within the limit supplies what is missing of c, and only interrupts before. */
  ghost predicate Delivers(c: Bytes, cmd: Command, world: nat -> Round) {
    && (cmd.size <= 0 || cmd.size == |c|)
    && PatientWorld(c, cmd.size > 0, world)
    && exists k: nat :: k < 6 && SuppliedBy(c, cmd.size > 0, world(k))
  }

  /** Where the loop ends: the whole content is in the part file and in the hash. */
  lemma DeliveredIsInPart(c: Bytes, cmd: Command, disk: Disk, world: nat -> Round)
    requires Delivers(c, cmd, world) && Resumable(c, cmd, disk)
    ensures var p := Prepare(cmd, disk, Start(false, false, false));
            && p.Ready?
            && var (s, v) := Attempts(TurnsLeft(p.session), world, p.session);
               v == Done && s.hashed == c && s.disk == Disk(Some(c), if disk.part.Some? then disk.target else None)
  {
    var k: nat :| k < 6 && SuppliedBy(c, cmd.size > 0, world(k));
    PatientAttempts(c, cmd.size > 0, world, Prepare(cmd, disk, Start(false, false, false)).session, k);
  }

  /** Completion, with the size given or not: the call succeeds with the whole content. */
  lemma DownloadCompletes(c: Bytes, cmd: Command, hex: Bytes -> string, disk: Disk, world: nat -> Round)
    requires Delivers(c, cmd, world) && Resumable(c, cmd, disk)
    requires cmd.sha256 == "" || EqualFold(hex(c), cmd.sha256)
    ensures Fetch(cmd, hex, disk, world) == (Disk(None, Some(c)), Succeeded)
  {
    DeliveredIsInPart(c, cmd, disk, world);
  }

  /** A content with another digest than the one given makes the call fail and is thrown away. */
  lemma WrongDigestIsDiscarded(c: Bytes, cmd: Command, hex: Bytes -> string, disk: Disk, world: nat -> Round)
    requires Delivers(c, cmd, world) && Resumable(c, cmd, disk)
    requires cmd.sha256 != "" && !EqualFold(hex(c), cmd.sha256)
    ensures Fetch(cmd, hex, disk, world) == (Disk(None, if disk.part.Some? then disk.target else None), Failed(false))
  {
    DeliveredIsInPart(c, cmd, disk, world);
  }

  /** So the next call starts afresh, and succeeds when the origin has the right content. */
  lemma WrongDigestIsRecovered(wrong: Bytes, right: Bytes, cmd: Command, hex: Bytes -> string, disk: Disk,
                               before: nat -> Round, after: nat -> Round)
    requires Delivers(wrong, cmd, before) && Resumable(wrong, cmd, disk) && (disk.part.Some? ==> disk.target.None?)
    requires Delivers(right, cmd, after)
    requires cmd.sha256 != "" && !EqualFold(hex(wrong), cmd.sha256) && EqualFold(hex(right), cmd.sha256)
    ensures var (d, outcome) := Fetch(cmd, hex, disk, before);
            outcome == Failed(false) && Fetch(cmd, hex, d, after) == (Disk(None, Some(right)), Succeeded)
  {
    WrongDigestIsDiscarded(wrong, cmd, hex, disk, before);
    DownloadCompletes(right, cmd, hex, Disk(None, None), after);
  }

  /** An origin that can be reached only with a request for the bytes from one offset on. */
  function ServesOnly(offset: nat, r: Reply): nat -> Round {
    n => Round(false, at => if at == offset then r else Unreachable, false, false, false)
  }

  /** What is left over is not downloaded again: the rest alone is enough, and of a whole package only the answer
      that there is no rest. That goes for a part file and for a target that was not installed. */
  lemma OnlyTheRestIsNeeded(c: Bytes, cmd: Command, hex: Bytes -> string, disk: Disk, n: nat)
    requires cmd.size == |c| && 0 < n <= |c| && Leftover(disk) == Some(c[..n])
    requires cmd.sha256 == "" || EqualFold(hex(c), cmd.sha256)
    ensures var rest := if n < |c| then Response(206, "", |c| - n, c[n..], [], false, false, false)
                        else Response(416, "", 0, [], [], false, false, false);
            Fetch(cmd, hex, disk, ServesOnly(n, rest)) == (Disk(None, Some(c)), Succeeded)
  {
    var rest := if n < |c| then Response(206, "", |c| - n, c[n..], [], false, false, false)
                else Response(416, "", 0, [], [], false, false, false);
    var s := Prepare(cmd, disk, Start(false, false, false)).session;
    assert ContentRangeTotal("").None?;
    assert c[..n] + c[n..] + [] == c && c[..n] + c[n..] == c;
    TurnUnrolled(ServesOnly(n, rest), s);
  }

  /** An origin that has the content but cannot continue it. */
  function WholeOnly(c: Bytes): nat -> Round {
    n => Round(false, offset => if offset > 0 then Response(416, "", 0, [], [], false, false, false)
                                else Response(200, "", |c|, c, [], false, false, false), false, false, false)
  }

  /** If the rest cannot be had, the part file is given up and the package is fetched from the start. */
  lemma RefusedRangeStartsOver(c: Bytes, cmd: Command, hex: Bytes -> string, disk: Disk, part: Bytes)
    requires cmd.size == |c| && 0 < |part| < |c| && Leftover(disk) == Some(part)
    requires cmd.sha256 == "" || EqualFold(hex(c), cmd.sha256)
    ensures Fetch(cmd, hex, disk, WholeOnly(c)) == (Disk(None, Some(c)), Succeeded)
  {
    var world := WholeOnly(c);
    var s := Prepare(cmd, disk, Start(false, false, false)).session;
    assert ContentRangeTotal("").None?;
    assert [] + c + [] == c && [] + c == c;
    TurnUnrolled(world, s);
    TurnUnrolled(world, s.(attempt := 1, disk := s.disk.(part := None), downloaded := 0, hashed := []));
  }

  /** In its first six attempts the origin gives every request this answer. */
  ghost predicate Insists(world: nat -> Round, r: Reply) {
    forall n: nat | n < 6 :: Faultless(world(n)) && forall offset: nat :: world(n).serve(offset) == r
  }

  /** Refusals leave the part file. After six of them, or six times without an answer, the call fails in a way
      that may be tried again, whatever a seventh attempt would bring; a refusal of another kind ends it at once,
      and for good. */
  lemma RefusalsKeepThePart(cmd: Command, hex: Bytes -> string, disk: Disk, world: nat -> Round, r: Reply)
    requires cmd.size <= 0 || |Content(Leftover(disk))| <= cmd.size
    requires Insists(world, r) && Refuses(r)
    ensures var (d, outcome) := Fetch(cmd, hex, disk, world);
            && d == Disk(Leftover(disk), if disk.part.Some? then disk.target else None)
            && outcome == Failed(r.Unreachable? || r.status in {408, 425, 429} || 500 <= r.status < 600)
  {
    RefusedAttempts(world, r, Prepare(cmd, disk, Start(false, false, false)).session);
  }

  predicate Refuses(r: Reply) {
    r.Response? ==>
      r.status >= 300 && r.status != 416 && r.contentLength <= 0 && ContentRangeTotal(r.contentRange).None?
  }

  lemma {:induction false} RefusedAttempts(world: nat -> Round, r: Reply, s: Session)
    requires s.attempt < MAX_ATTEMPTS && Insists(world, r) && Refuses(r)
    ensures var (s', v) := Attempts(TurnsLeft(s), world, s);
            && s'.disk == s.disk
            && v == GiveUp(r.Unreachable? || r.status in {408, 425, 429} || 500 <= r.status < 600)
    decreases MAX_ATTEMPTS - s.attempt
  {
    TurnUnrolled(world, s);
    assert world(s.attempt).serve(s.downloaded) == r;
    var (s', v) := Attempt(world(s.attempt), s);
    assert s' == s;
    if v == Retry {
      RefusedAttempts(world, r, s.(attempt := s.attempt + 1));
    }
  }

  /** The whole package in one reply that could not be copied, synced or closed. */
  predicate Spoils(c: Bytes, r: Reply) {
    r.Response? && r.status == 200 && r.contentRange == "" && r.contentLength == |c| && r.body == c && r.torn == []
      && (r.copyFails || r.syncFails || r.closeFails)
  }

  /** A copy that is not safely on disk is no success, however often it is complete. */
  lemma SpoiledCopiesFail(c: Bytes, cmd: Command, hex: Bytes -> string, disk: Disk, world: nat -> Round, r: Reply)
    requires cmd.size == |c| > 0 && |Content(Leftover(disk))| <= |c| && Insists(world, r) && Spoils(c, r)
    ensures var (d, outcome) := Fetch(cmd, hex, disk, world);
            d == Disk(Some(c), if disk.part.Some? then disk.target else None) && outcome == Failed(true)
  {
    SpoiledAttempts(c, world, r, Prepare(cmd, disk, Start(false, false, false)).session);
  }

  lemma {:induction false} SpoiledAttempts(c: Bytes, world: nat -> Round, r: Reply, s: Session)
    requires s.attempt < MAX_ATTEMPTS && Insists(world, r) && Spoils(c, r) && s.total == |c| && SizeInStep(s)
    ensures var (s', v) := Attempts(TurnsLeft(s), world, s);
            s'.disk == Disk(Some(c), s.disk.target) && v == GiveUp(true)
    decreases MAX_ATTEMPTS - s.attempt
  {
    TurnUnrolled(world, s);
    assert world(s.attempt).serve(s.downloaded) == r;
    assert ContentRangeTotal("").None?;
    assert [] + c + [] == c;
    var (s', v) := Attempt(world(s.attempt), s);
    assert s'.disk == Disk(Some(c), s.disk.target);
    if v == Retry {
      SpoiledAttempts(c, world, r, s'.(attempt := s.attempt + 1));
    }
  }

  /** When a local call fails at the end, what has been fetched stays: for promotion another time, or, with a
      wrong digest, because it could not be removed. */
  lemma LocalFailuresKeepThePart(c: Bytes, cmd: Command, hex: Bytes -> string, disk: Disk, world: nat -> Round,
                                 finish: Finish)
    requires Delivers(c, cmd, world) && Resumable(c, cmd, disk)
    requires finish.statFails || if cmd.sha256 == "" || EqualFold(hex(c), cmd.sha256) then finish.promoteFails
                                 else finish.removeFails
    ensures Download(cmd, hex, disk, Start(false, false, false), world, finish)
            == (Disk(Some(c), if disk.part.Some? then disk.target else None), Failed(false))
  {
    DeliveredIsInPart(c, cmd, disk, world);
  }

  /** And when one fails at the start, nothing is asked of the origin, and nothing is lost. */
  lemma EarlyFailuresLoseNothing(cmd: Command, hex: Bytes -> string, disk: Disk, start: Start, world: nat -> Round,
                                 finish: Finish)
    requires (start.renameFails && disk.part.None? && disk.target.Some?) || start.loadFails
             || (start.removeFails && cmd.size > 0 && |Content(Leftover(disk))| > cmd.size)
    ensures var (d, outcome) := Download(cmd, hex, disk, start, world, finish);
            Leftover(d) == Leftover(disk) && outcome == Failed(false) && (disk.part.Some? ==> d == disk)
  {
  }

  /** An origin that refuses the first request with an error page of the given length, and from then on sends
      the whole content. */
  function RefusesOnce(c: Bytes, length: int): nat -> Round {
    n =>
      if n == 0
      then Round(false, offset => Response(503, "", length, [], [], false, false, false), false, false, false)
      else Round(false, offset => Response(200, "", |c|, c, [], false, false, false), false, false, false)
  }

  /** A reply that misleads does spoil the call: with no size given, one error page of another length than the
      package makes every perfect reply after it fail, and with them the call. */
  lemma ErrorBodyFailsDownload(c: Bytes, length: int, sha256: string, hex: Bytes -> string)
    requires c != [] && 0 < length != |c|
    ensures Fetch(Command(0, sha256), hex, Disk(None, None), RefusesOnce(c, length))
            == (Disk(Some(c), None), Failed(true))
  {
    var world := RefusesOnce(c, length);
    var s := Session(0, Disk(None, None), 0, [], 0);
    assert ContentRangeTotal("").None?;
    TurnUnrolled(world, s);
    assert Attempt(world(0), s) == (s.(total := length), Retry);
    WrongTotalFails(c, length, s.(total := length, attempt := 1));
  }

  lemma {:induction false} WrongTotalFails(c: Bytes, length: int, s: Session)
    requires c != [] && 0 < length == s.total != |c| && 1 <= s.attempt < MAX_ATTEMPTS && s.disk.target.None?
    requires SizeInStep(s) && HashInStep(s)
    ensures var (s', v) := Attempts(TurnsLeft(s), RefusesOnce(c, length), s);
            v == GiveUp(true) && s'.disk == Disk(Some(c), None)
    decreases MAX_ATTEMPTS - s.attempt
  {
    var world := RefusesOnce(c, length);
    var next := s.(disk := Disk(Some(c), None), downloaded := |c|, hashed := c);
    assert ContentRangeTotal("").None?;
    assert [] + c + [] == c && [] + c == c;
    assert s.downloaded == 0 ==> s.hashed == [];
    assert Attempt(world(s.attempt), s) == (next, AfterFailure(s.attempt, true));
    TurnUnrolled(world, s);
    if s.attempt < MAX_ATTEMPTS - 1 {
      WrongTotalFails(c, length, next.(attempt := s.attempt + 1));
    }
  }

  /** A complete Content-Range header gives back its total, whatever its range. */
  lemma ContentRangeRoundTrip(range: string, total: nat)
    requires 0 < total <= MAX_INT64
    ensures ContentRangeTotal("bytes " + range + "/" + Decimal(total)) == Some(total)
  {
    ParseReadsDecimal(total);
    DecimalIsTrimmed(total);
    DigitsReadDecimal(total);
    AfterSlash(range, Decimal(total));
  }

  /** One with an unknown total gives none. */
  lemma UnknownTotalGivesNone(range: string)
    ensures ContentRangeTotal("bytes " + range + "/" + "*") == None
  {
    AfterSlash(range, "*");
  }

  lemma AfterSlash(range: string, tail: string)
    requires tail != "" && Trimmed(tail) && '/' !in tail
    ensures ContentRangeTotal("bytes " + range + "/" + tail) ==
            match ParseInt64(tail) case Some(n) => (if n > 0 then Some(n) else None) case None => None
  {
    var head := "bytes " + range;
    var value := head + "/" + tail;
    assert value[0] == 'b' && value[|value| - 1] == tail[|tail| - 1];
    TrimSpaceTrims(value);
    SlashBefore(head, tail);
    assert value[|head| + 1..] == tail;
    TrimSpaceTrims(tail);
  }

  lemma {:induction false} SlashBefore(head: string, tail: string)
    requires '/' !in tail
    ensures LastSlash(head + "/" + tail) == Some(|head|)
  {
    var s := head + "/" + tail;
    assert s[|head|] == '/' && forall k | |head| < k < |s| :: s[k] == tail[k - |head| - 1];
  }

  // ---------------------------------------------------------------- the loop itself

  lemma TurnUnrolled(world: nat -> Round, s: Session)
    requires s.attempt < MAX_ATTEMPTS
    ensures Attempts(TurnsLeft(s), world, s) ==
            var (s', v) := Attempt(world(s.attempt), s);
            var next := s'.(attempt := s.attempt + 1);
            if v == Retry then Attempts(TurnsLeft(next), world, next) else (s', v)
  {
  }

  /** The two files on disk, changed in place. */
  class UpgradeDisk {
    var part: Option<Bytes>
    var target: Option<Bytes>

    constructor (part: Option<Bytes>, target: Option<Bytes>)
      ensures View() == Disk(part, target)
    {
      this.part, this.target := part, target;
    }

    ghost function View(): Disk
      reads this
    {
      Disk(part, target)
    }

    /** The body of the attempt loop. */
    method Turn(attempt: nat, round: Round, downloadedSize: nat, hash: Bytes, totalSize: int)
        returns (downloadedSize': nat, hash': Bytes, totalSize': int, verdict: Verdict)
      modifies this
      ensures (Session(attempt, View(), downloadedSize', hash', totalSize'), verdict)
              == Attempt(round, Session(attempt, old(View()), downloadedSize, hash, totalSize))
    {
      downloadedSize', hash', totalSize' := downloadedSize, hash, totalSize;
      if round.badRequest {
        return downloadedSize', hash', totalSize', Abort;
      }
      var reply := round.serve(downloadedSize);
      if reply.Unreachable? {
        return downloadedSize', hash', totalSize', AfterFailure(attempt, true);
      }
      var responseTotal := ResponseTotal(totalSize, downloadedSize, reply);
      if responseTotal > 0 {
        totalSize' := responseTotal;
      }
      if reply.status == RANGE_NOT_SATISFIABLE && totalSize' > 0 && downloadedSize == totalSize' {
        return downloadedSize', hash', totalSize', Done;
      }
      if reply.status == RANGE_NOT_SATISFIABLE {
        if round.removeFails {
          return downloadedSize', hash', totalSize', Abort;
        }
        part := None;
        return 0, [], totalSize', AfterFailure(attempt, true);
      }
      if reply.status >= 300 {
        return downloadedSize', hash', totalSize',
               if RetryableStatus(reply.status) then AfterFailure(attempt, true) else GiveUp(false);
      }
      var appendMode := downloadedSize > 0 && reply.status == PARTIAL_CONTENT;
      if downloadedSize > 0 && !appendMode {
        downloadedSize', hash' := 0, [];
      }
      if round.openFails {
        return downloadedSize', hash', totalSize', Abort;
      }
      part := Some((if appendMode then Content(part) else []) + reply.body + reply.torn);
      hash' := hash' + reply.body;
      if round.statFails {
        return downloadedSize', hash', totalSize', Abort;
      }
      downloadedSize' := |part.value|;
      if reply.copyFails || reply.torn != [] || reply.syncFails || reply.closeFails {
        verdict := AfterFailure(attempt, true);
      } else if totalSize' > 0 && downloadedSize' != totalSize' {
        verdict := AfterFailure(attempt, true);
      } else {
        verdict := Done;
      }
    }

    /** downloadUpgradeBinary */
    method DownloadUpgradeBinary(cmd: Command, hex: Bytes -> string, start: Start, world: nat -> Round, finish: Finish)
        returns (outcome: Outcome)
      modifies this
      ensures (View(), outcome) == Download(cmd, hex, old(View()), start, world, finish)
    {
      if part.None? && target.Some? {
        if start.renameFails {
          return Failed(false);
        }
        part, target := target, None;
      }
      if start.loadFails {
        return Failed(false);
      }
      var downloadedSize: nat, hash: Bytes := |Content(part)|, Content(part);
      if cmd.size > 0 && downloadedSize > cmd.size {
        if start.removeFails {
          return Failed(false);
        }
        part, downloadedSize, hash := None, 0, [];
      }
      var totalSize := cmd.size;
      ghost var s := Session(0, View(), downloadedSize, hash, totalSize);
      assert Prepare(cmd, old(View()), start) == Ready(s);
      ghost var result := Attempts(TurnsLeft(s), world, s);
      var attempt, verdict := 0, Retry;
      while verdict == Retry
        invariant verdict == Retry ==> attempt < MAX_ATTEMPTS
        invariant s == Session(attempt, View(), downloadedSize, hash, totalSize)
        invariant result == if verdict == Retry then Attempts(TurnsLeft(s), world, s) else (s, verdict)
        decreases MAX_ATTEMPTS - attempt, verdict == Retry
      {
        TurnUnrolled(world, s);
        downloadedSize, hash, totalSize, verdict := Turn(attempt, world(attempt), downloadedSize, hash, totalSize);
        if verdict == Retry {
          attempt := attempt + 1;
        }
        s := Session(attempt, View(), downloadedSize, hash, totalSize);
      }
      outcome := Settle(cmd, hex, hash, verdict, finish, s);
    }

    /** The checks and the promotion after the loop. */
    method Settle(cmd: Command, hex: Bytes -> string, hash: Bytes, verdict: Verdict, finish: Finish, ghost s: Session)
        returns (outcome: Outcome)
      requires s.disk == View() && s.hashed == hash
      modifies this
      ensures (View(), outcome) == Conclude(cmd, hex, s, verdict, finish)
    {
      if verdict.GiveUp? {
        return Failed(verdict.retryable);
      }
      if verdict != Done || finish.statFails || part.None? {
        return Failed(false);
      }
      if cmd.size > 0 && |part.value| != cmd.size {
        return Failed(false);
      }
      if cmd.sha256 != "" && !EqualFold(hex(hash), cmd.sha256) {
        if !finish.removeFails {
          part := None;
        }
        return Failed(false);
      }
      if finish.promoteFails {
        return Failed(false);
      }
      part, target := None, part;
      return Succeeded;
    }
  }
}

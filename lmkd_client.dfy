/** The lmkd client helpers of liblmkd_utils.cpp. The results of the socket
    and file-system calls they make become inputs, so each helper becomes a
    decision over those results; the process-wide cgroup-version cache becomes
    a class. */
module LmkdClient {
  import opened CFormat

  datatype Option<T> = None | Some(value: T)

  // ---------------------------------------------------------------------
  // Requests to the daemon
  // ---------------------------------------------------------------------

  /** sizeof(int) on the platforms lmkd runs on. */
  const SIZEOF_INT: int := 4

  /** LMK_UPDATE_PROPS, the eighth command of the lmk_cmd enumeration in
      lmkd.h (which is not part of this model). */
  const LMK_UPDATE_PROPS: int := 7

  /** The five outcomes a caller of lmkd_update_props must tell apart. */
  datatype UpdatePropsResult =
    | UpdatePropsSuccess
    | UpdatePropsFail
    | UpdatePropsSendErr
    | UpdatePropsRecvErr
    | UpdatePropsFormatErr

  /** What the reply turned out to be: the value `read` returned, the command
      tag the packet decoder found, and the result field of the reply. The
      packet's byte layout belongs to the codec and is not modelled. */
  datatype Reply = Reply(size: int, cmd: int, result: int)

  /** A reply is trusted only when it is exactly two ints long and carries the
      LMK_UPDATE_PROPS tag. */
  predicate WellFormed(reply: Reply) {
    reply.size == 2 * SIZEOF_INT && reply.cmd == LMK_UPDATE_PROPS
  }

  /** lmkd_update_props: `writeRet` is what the (EINTR-retried) write of the
      request returned, `reply` what the read that follows it produced. */
  function LmkdUpdateProps(writeRet: int, reply: Reply): (r: UpdatePropsResult)
    ensures r == UpdatePropsSendErr <==> writeRet < 0
    ensures r == UpdatePropsRecvErr <==> 0 <= writeRet && reply.size < 0
    ensures r == UpdatePropsFormatErr <==> 0 <= writeRet && 0 <= reply.size && !WellFormed(reply)
    ensures r == UpdatePropsSuccess <==> 0 <= writeRet && WellFormed(reply) && reply.result == 0
    ensures r == UpdatePropsFail <==> 0 <= writeRet && WellFormed(reply) && reply.result != 0
  {
    if writeRet < 0 then UpdatePropsSendErr
    else if reply.size < 0 then UpdatePropsRecvErr
    else if reply.size != 2 * SIZEOF_INT || reply.cmd != LMK_UPDATE_PROPS then UpdatePropsFormatErr
    else if reply.result == 0 then UpdatePropsSuccess
    else UpdatePropsFail
  }

  /** A send failure is decided before any reply exists: when the write
      fails, nothing the read could have produced changes the outcome. */
  lemma SendErrIgnoresReply(writeRet: int, reply1: Reply, reply2: Reply)
    requires writeRet < 0
    ensures LmkdUpdateProps(writeRet, reply1) == LmkdUpdateProps(writeRet, reply2) == UpdatePropsSendErr
  {
  }

  /** Inputs for every outcome: a write result and a reply that lead to it. */
  function UpdatePropsScenario(outcome: UpdatePropsResult): (int, Reply) {
    match outcome
    case UpdatePropsSendErr => (-1, Reply(0, 0, 0))
    case UpdatePropsRecvErr => (0, Reply(-1, 0, 0))
    case UpdatePropsFormatErr => (0, Reply(2 * SIZEOF_INT, LMK_UPDATE_PROPS + 1, 0))
    case UpdatePropsFail => (0, Reply(2 * SIZEOF_INT, LMK_UPDATE_PROPS, 1))
    case UpdatePropsSuccess => (0, Reply(2 * SIZEOF_INT, LMK_UPDATE_PROPS, 0))
  }

  /** All five outcomes can occur, so none of the caller's cases is dead. */
  lemma EveryUpdatePropsOutcomeOccurs(outcome: UpdatePropsResult)
    ensures var (writeRet, reply) := UpdatePropsScenario(outcome);
            LmkdUpdateProps(writeRet, reply) == outcome
  {
  }

  /** lmkd_register_proc: the request of `size` bytes is written once
      (retried only on EINTR) and no reply is read; `writeRet` is what write
      returned. A short write still counts as success. */
  function LmkdRegisterProc(size: nat, writeRet: int): (r: int)
    ensures r == 0 || r == -1
    ensures r == -1 <==> writeRet < 0
    ensures 0 <= writeRet < size ==> r == 0
  {
    if writeRet < 0 then -1 else 0
  }

  /** lmkd_unregister_proc: the same exchange with a removal request. */
  function LmkdUnregisterProc(size: nat, writeRet: int): (r: int)
    ensures r == 0 || r == -1
    ensures r == -1 <==> writeRet < 0
    ensures 0 <= writeRet < size ==> r == 0
  {
    if writeRet < 0 then -1 else 0
  }

  /** The three request helpers agree on what a failed send is. */
  lemma SendFailureAgrees(size: nat, writeRet: int, reply: Reply)
    ensures LmkdRegisterProc(size, writeRet) == -1
        <==> LmkdUpdateProps(writeRet, reply) == UpdatePropsSendErr
    ensures LmkdUnregisterProc(size, writeRet) == LmkdRegisterProc(size, writeRet)
  {
  }

  // ---------------------------------------------------------------------
  // Memory cgroup version detection
  // ---------------------------------------------------------------------

  /** The controller the v2 check looks for. */
  const MEMORY: string := "memory"

  /** The characters `operator>>` treats as separators (isspace in the C
      locale): space, tab, newline, vertical tab, form feed, carriage return. */
  predicate IsSpace(c: char) {
    c == ' ' || '\t' <= c <= '\r'
  }

  /** `w` stands at position `i` of `s` as a whole whitespace-delimited token. */
  predicate TokenAt(s: string, i: int, w: string) {
    0 <= i && i + |w| <= |s| && s[i..i + |w|] == w
    && (i == 0 || IsSpace(s[i - 1]))
    && (i + |w| == |s| || IsSpace(s[i + |w|]))
  }

  /** Some whitespace-separated token of `s` is exactly `w`. */
  ghost predicate HasToken(s: string, w: string) {
    exists i :: TokenAt(s, i, w)
  }

  /** Inside a run of non-space characters that starts after a separator, the
      only place "memory" can stand as a whole token is the start of the run,
      and only when the run is exactly "memory". */
  lemma NoTokenInsideRun(s: string, start: int, end: int)
    requires 0 <= start <= end <= |s|
    requires start == 0 || IsSpace(s[start - 1])
    requires forall k :: start <= k < end ==> !IsSpace(s[k])
    requires end == |s| || IsSpace(s[end])
    requires s[start..end] != MEMORY
    ensures forall a :: start <= a <= end ==> !TokenAt(s, a, MEMORY)
  {
    forall a | start <= a <= end
      ensures !TokenAt(s, a, MEMORY)
    {
    }
  }

  /** __using_memcg_v2: reads cgroup.controllers token by token and reports
      whether one of the tokens is "memory". `controllers` is the file's
      content, or None when it cannot be opened. */
  method DetectMemcgV2(controllers: Option<string>) returns (v2: bool)
    ensures v2 <==> controllers.Some? && HasToken(controllers.value, MEMORY)
  {
    if controllers.None? {
      // extraction from a stream that failed to open fails at once
      return false;
    }
    var s := controllers.value;
    var ctlr: string := "";
    var start, i := 0, 0;
    while i < |s|
      invariant 0 <= start <= i <= |s|
      invariant ctlr == s[start..i]
      invariant forall k :: start <= k < i ==> !IsSpace(s[k])
      invariant start == 0 || IsSpace(s[start - 1])
      invariant forall a :: 0 <= a < start ==> !TokenAt(s, a, MEMORY)
    {
      if IsSpace(s[i]) {
        if ctlr == MEMORY {
          assert TokenAt(s, start, MEMORY);
          return true;
        }
        NoTokenInsideRun(s, start, i);
        ctlr, start := "", i + 1;
      } else {
        ctlr := ctlr + [s[i]];
      }
      i := i + 1;
    }
    // the last token may end at the end of the file
    if ctlr == MEMORY {
      assert TokenAt(s, start, MEMORY);
      return true;
    }
    NoTokenInsideRun(s, start, i);
    return false;
  }

  /** The two places the per-application memory cgroups live. */
  const MEMCG_V2_APPS_DIR: string := "/sys/fs/cgroup"
  const MEMCG_V1_APPS_DIR: string := "/dev/memcg/apps"

  /** memcg_apps_dir, given the cached detection result. */
  function AppsDir(usingV2: bool): (dir: string)
    ensures dir == MEMCG_V2_APPS_DIR || dir == MEMCG_V1_APPS_DIR
    ensures dir == MEMCG_V2_APPS_DIR <==> usingV2
  {
    if usingV2 then MEMCG_V2_APPS_DIR else MEMCG_V1_APPS_DIR
  }

  /** The process-wide `static const bool using_v2` of using_memcg_v2:
      None until the first call computes it. */
  class MemcgVersion {
    var usingV2: Option<bool>

    constructor()
      ensures usingV2 == None
    {
      usingV2 := None;
    }

    /** using_memcg_v2: the first call scans `controllers` (the content of
        cgroup.controllers at that moment); later calls return the stored
        value whatever the file holds by then. */
    method UsingMemcgV2(controllers: Option<string>) returns (v2: bool)
      modifies this
      ensures usingV2 == Some(v2)
      ensures old(usingV2).Some? ==> v2 == old(usingV2).value
      ensures old(usingV2).None? ==> (v2 <==> controllers.Some? && HasToken(controllers.value, MEMORY))
    {
      if usingV2.None? {
        var detected := DetectMemcgV2(controllers);
        usingV2 := Some(detected);
      }
      v2 := usingV2.value;
    }

    /** memcg_apps_dir: the directory that matches the cached detection. */
    method MemcgAppsDir(controllers: Option<string>) returns (dir: string)
      modifies this
      ensures usingV2.Some? && dir == AppsDir(usingV2.value)
      ensures old(usingV2).Some? ==> usingV2 == old(usingV2)
      ensures old(usingV2).None? ==> usingV2 == Some(controllers.Some? && HasToken(controllers.value, MEMORY))
    {
      var v2 := UsingMemcgV2(controllers);
      dir := AppsDir(v2);
    }
  }

  // ---------------------------------------------------------------------
  // Memory cgroup provisioning
  // ---------------------------------------------------------------------

  /** How one mkdir of create_memcg ended: created, failed with EEXIST, or
      failed with any other errno. */
  datatype MkdirOutcome = Created | AlreadyExists | MkdirFailed

  /** The file-system calls create_memcg makes, in order. */
  datatype FsCall =
    | Mkdir(path: string, mode: int)
    | OpenWriteOnly(path: string)
    | Write(fd: int, data: string)
    | Close(fd: int)

  const S_IRWXU: int := 0x1C0  // 0700
  const S_IRWXG: int := 0x38   // 0070
  const S_IROTH: int := 0x4    // 0004
  const S_IXOTH: int := 0x1    // 0001

  /** S_IRWXU | S_IRWXG | S_IROTH | S_IXOTH, that is 0775 (the bits are
      disjoint, so the sum is the bitwise or). */
  const MEMCG_DIR_MODE: int := S_IRWXU + S_IRWXG + S_IROTH + S_IXOTH

  /** The full (untruncated) texts create_memcg formats. */
  function UidDir(appsDir: string, uid: U32): string {
    appsDir + "/uid_" + Decimal(uid)
  }

  function PidDir(appsDir: string, uid: U32, pid: I32): string {
    UidDir(appsDir, uid) + "/pid_" + Decimal(AsUnsigned(pid))
  }

  function TasksFile(appsDir: string, uid: U32, pid: I32): string {
    PidDir(appsDir, uid, pid) + "/tasks"
  }

  /** The calls create_memcg makes when both directory steps pass and the
      tasks file opens as `fd`. */
  function ProvisioningCalls(appsDir: string, uid: U32, pid: I32, fd: int): seq<FsCall> {
    [ Mkdir(Snprintf(UidDir(appsDir, uid)), MEMCG_DIR_MODE),
      Mkdir(Snprintf(PidDir(appsDir, uid, pid)), MEMCG_DIR_MODE),
      OpenWriteOnly(Snprintf(TasksFile(appsDir, uid, pid))),
      Write(fd, Decimal(AsUnsigned(pid))),
      Close(fd) ]
  }

  /** create_memcg: `uidMkdir` and `pidMkdir` say how the two mkdir calls
      ended, `tasksFd` is what open returned and `writeRet` what the
      (EINTR-retried) write of the pid returned. `calls` lists the
      file-system calls made, in order. */
  method CreateMemcg(appsDir: string, uid: U32, pid: I32,
                     uidMkdir: MkdirOutcome, pidMkdir: MkdirOutcome,
                     tasksFd: int, writeRet: int)
    returns (ret: int, calls: seq<FsCall>)
    // the failure taxonomy: each stage has its own code
    ensures ret == -1 <==> uidMkdir == MkdirFailed || pidMkdir == MkdirFailed
    ensures ret == -2 <==> uidMkdir != MkdirFailed && pidMkdir != MkdirFailed && tasksFd < 0
    ensures ret == -3 <==> uidMkdir != MkdirFailed && pidMkdir != MkdirFailed && 0 <= tasksFd && writeRet < 0
    ensures ret == 0 <==> uidMkdir != MkdirFailed && pidMkdir != MkdirFailed && 0 <= tasksFd && 0 <= writeRet
    // every path handed to the file system fits the buffer
    ensures forall c :: c in calls && !c.Write? && !c.Close? ==> |c.path| <= BUF_SIZE - 1
    // the calls stop at the failing stage; nothing is written unless the tasks file opened
    ensures calls <= ProvisioningCalls(appsDir, uid, pid, tasksFd)
    ensures |calls| == if uidMkdir == MkdirFailed then 1
                       else if pidMkdir == MkdirFailed then 2
                       else if tasksFd < 0 then 3
                       else 5
  {
    var buf := Snprintf(UidDir(appsDir, uid));
    calls := [Mkdir(buf, MEMCG_DIR_MODE)];
    if uidMkdir == MkdirFailed {
      return -1, calls;
    }

    buf := Snprintf(PidDir(appsDir, uid, pid));
    calls := calls + [Mkdir(buf, MEMCG_DIR_MODE)];
    if pidMkdir == MkdirFailed {
      return -1, calls;
    }

    buf := Snprintf(TasksFile(appsDir, uid, pid));
    calls := calls + [OpenWriteOnly(buf)];
    if tasksFd < 0 {
      return -2, calls;
    }

    var text := Decimal(AsUnsigned(pid));
    var written := |text|;  // snprintf returns the length of the full text
    buf := Snprintf(text);
    if written >= BUF_SIZE {
      written := BUF_SIZE - 1;
    }
    U32DecimalFits(AsUnsigned(pid));
    assert buf[..written] == text;
    calls := calls + [Write(tasksFd, buf[..written]), Close(tasksFd)];
    written := writeRet;

    ret := if written < 0 then -3 else 0;
  }

  /** Each truncated path create_memcg hands to the file system is a string
      prefix of the next one. Once truncation sets in they can coincide or
      end in the middle of a component (see LongAppsDirCollapsesPaths). */
  lemma ProvisionedPathsNest(appsDir: string, uid: U32, pid: I32)
    ensures Snprintf(UidDir(appsDir, uid)) <= Snprintf(PidDir(appsDir, uid, pid))
    ensures Snprintf(PidDir(appsDir, uid, pid)) <= Snprintf(TasksFile(appsDir, uid, pid))
  {
  }

  /** With an apps directory of 250 characters or more, the 256-byte buffer
      cuts every path inside "/uid_": both mkdir calls and the open name the
      same path, whatever the uid and pid. */
  lemma LongAppsDirCollapsesPaths(appsDir: string, uid: U32, pid: I32)
    requires |appsDir| >= BUF_SIZE - |"/uid_"| - 1
    ensures Snprintf(UidDir(appsDir, uid)) == (appsDir + "/uid_")[..BUF_SIZE - 1]
    ensures Snprintf(PidDir(appsDir, uid, pid)) == Snprintf(UidDir(appsDir, uid))
    ensures Snprintf(TasksFile(appsDir, uid, pid)) == Snprintf(UidDir(appsDir, uid))
  {
    var head := appsDir + "/uid_";
    var u := UidDir(appsDir, uid);
    var p := PidDir(appsDir, uid, pid);
    var t := TasksFile(appsDir, uid, pid);
    assert u[..BUF_SIZE - 1] == head[..BUF_SIZE - 1];
    assert p[..BUF_SIZE - 1] == u[..BUF_SIZE - 1];
    assert t[..BUF_SIZE - 1] == p[..BUF_SIZE - 1];
  }

  /** What create_memcg writes into the tasks file reads back as the pid
      (reinterpreted as unsigned, as `%u` does). */
  lemma TasksFileNamesThePid(appsDir: string, uid: U32, pid: I32, fd: int)
    ensures var data := ProvisioningCalls(appsDir, uid, pid, fd)[3].data;
            AllDigits(data) && ParseDecimal(data) == AsUnsigned(pid)
  {
    DecimalRoundTrip(AsUnsigned(pid));
  }

  /** With apps directory "/dev/memcg/apps", uid 1000 and pid 2000, the
      directories uid_1000 and uid_1000/pid_2000 are created and "2000" is
      written to uid_1000/pid_2000/tasks. */
  lemma ProvisioningExample(fd: int)
    ensures ProvisioningCalls(MEMCG_V1_APPS_DIR, 1000, 2000, fd)
         == [ Mkdir("/dev/memcg/apps/uid_1000", MEMCG_DIR_MODE),
              Mkdir("/dev/memcg/apps/uid_1000/pid_2000", MEMCG_DIR_MODE),
              OpenWriteOnly("/dev/memcg/apps/uid_1000/pid_2000/tasks"),
              Write(fd, "2000"),
              Close(fd) ]
  {
    assert Decimal(1) == "1" && Decimal(2) == "2";
    assert Decimal(10) == "10" && Decimal(20) == "20";
    assert Decimal(100) == "100" && Decimal(200) == "200";
    assert Decimal(1000) == "1000" && Decimal(2000) == "2000";
    assert UidDir(MEMCG_V1_APPS_DIR, 1000) == "/dev/memcg/apps/uid_1000";
    assert PidDir(MEMCG_V1_APPS_DIR, 1000, 2000) == "/dev/memcg/apps/uid_1000/pid_2000";
    assert TasksFile(MEMCG_V1_APPS_DIR, 1000, 2000) == "/dev/memcg/apps/uid_1000/pid_2000/tasks";
  }
}

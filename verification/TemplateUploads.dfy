/** Uploads of a template's build files: a one-time token, a check, an unlocked write of a temporary file, and a second
    check that commits (internal/gateway/management_store.go, internal/gateway/template_files.go). */
module TemplateUploads {
  import opened Strings

  type Token = string
  type Path = string
  type CallId = nat

  const TOKEN_LIFETIME: nat := 900
  const MAX_UPLOAD_BYTES: nat := 0x2000_0000
  const SHA256_HEX_LENGTH: nat := 64

  /** A pending upload. */
  datatype Upload = Upload(templateId: string, hash: string, expiresAt: nat)

  /** A stored build file. The digest is the one the server computed, in lower-case hexadecimal. */
  datatype File = File(templateId: string, hash: string, path: Path, size: nat, digest: string)

  datatype UploadError = WriteFailed | HashMismatch | BadArchive | Conflict

  /** The two results of an upload: whether the token was good, and the error. */
  datatype Answer = Rejected | Accepted | Failed(error: UploadError)

  datatype Verdict = Unknown | Expired | Mismatched | Granted

  // ---------------------------------------------------------------- keys and hashes

  function TemplateFileKey(templateId: string, hash: string): string {
    TrimSpace(templateId) + "/" + TrimSpace(hash)
  }

  predicate IsHexDigit(c: char) {
    '0' <= c <= '9' || 'a' <= c <= 'f'
  }

  /** The part of a cache key that can be a SHA-256 sum. */
  function DigestPart(hash: string): string {
    var lower := ToLower(TrimSpace(hash));
    if "sha256:" <= lower then lower[7..] else lower
  }

  predicate IsDigest(s: string) {
    |s| == SHA256_HEX_LENGTH && forall i :: 0 <= i < |s| ==> IsHexDigit(s[i])
  }

  /** A sum is 64 digits, whatever the case and with or without a prefix in the cache key. */
  lemma DigestsAre(s: string, hash: string)
    ensures IsDigest(s) <==> |s| == 64 && forall i :: 0 <= i < 64 ==> '0' <= s[i] <= '9' || 'a' <= s[i] <= 'f'
    ensures var lower := ToLower(TrimSpace(hash));
            if |lower| >= 7 && lower[..7] == "sha256:" then lower == "sha256:" + DigestPart(hash) else DigestPart(hash) == lower
  {
  }

  /** A cache key that is a SHA-256 sum must be that of the content; any other key is taken as it is. */
  predicate HashAccepts(hash: string, digest: string) {
    IsDigest(DigestPart(hash)) ==> DigestPart(hash) == digest
  }

  // ---------------------------------------------------------------- the two critical sections

  function Judge(uploads: map<Token, Upload>, token: Token, templateId: string, hash: string, now: nat): Verdict {
    if token !in uploads then Unknown
    else if now > uploads[token].expiresAt then Expired
    else if uploads[token].templateId != templateId || uploads[token].hash != hash then Mismatched
    else Granted
  }

  /** A check removes the token if it finds it expired. */
  function Swept(uploads: map<Token, Upload>, token: Token, now: nat): map<Token, Upload> {
    if token in uploads && now > uploads[token].expiresAt then uploads - {token} else uploads
  }

  function CommitAnswer(files: map<string, File>, verdict: Verdict, file: File): Answer {
    var key := TemplateFileKey(file.templateId, file.hash);
    if !verdict.Granted? then Rejected
    else if key in files && files[key].digest != file.digest then Failed(Conflict)
    else Accepted
  }

  /** Only the first accepted upload of a key is stored; a repeat with the same digest keeps the first. */
  function Committed(files: map<string, File>, verdict: Verdict, file: File): map<string, File> {
    var key := TemplateFileKey(file.templateId, file.hash);
    if verdict.Granted? && key !in files then files[key := file] else files
  }

  function Consumed(uploads: map<Token, Upload>, token: Token, now: nat, answer: Answer): map<Token, Upload> {
    if answer.Accepted? then uploads - {token} else Swept(uploads, token, now)
  }

  // ---------------------------------------------------------------- the protocol

  datatype CallPc =
    | Start
    | Admitted
    | Writing(path: Path)
    | Written(file: File)
    | Valid(file: File)
    | Removing(path: Path, answer: Answer)
    | Done(answer: Answer)

  /** The arguments are already trimmed. `digest` is the sum of what the call wrote, once it has. */
  datatype Call = Call(token: Token, templateId: string, hash: string, digest: string, pc: CallPc)

  /** `leftover` records history: the temporary files whose removal failed, an error that the code ignores. */
  datatype State = State(
    now: nat,
    uploads: map<Token, Upload>,
    issued: set<Token>,
    files: map<string, File>,
    disk: set<Path>,
    leftover: set<Path>,
    calls: map<CallId, Call>)

  datatype Step =
    | Tick(now: nat)
    | CreateUpload(token: Token, templateId: string, hash: string)
    | Begin(c: CallId, token: Token, templateId: string, hash: string)
    | Admit(c: CallId)
    | CreateTemp(c: CallId, path: Path)
    | FailCreate(c: CallId)
    | Write(c: CallId, size: nat, digest: string)
    | FailWrite(c: CallId)
    | Validate(c: CallId, archiveOk: bool)
    | Commit(c: CallId)
    | RemoveTemp(c: CallId, ok: bool)

  predicate Enabled(s: State, step: Step) {
    match step
    case Tick(now) => s.now <= now
    case CreateUpload(token, _, _) => token !in s.issued
    case Begin(c, _, _, _) => c !in s.calls
    case Admit(c) => c in s.calls && s.calls[c].pc.Start?
    case CreateTemp(c, path) => c in s.calls && s.calls[c].pc.Admitted? && path !in s.disk
    case FailCreate(c) => c in s.calls && s.calls[c].pc.Admitted?
    case Write(c, size, _) => c in s.calls && s.calls[c].pc.Writing? && 0 < size <= MAX_UPLOAD_BYTES
    case FailWrite(c) => c in s.calls && s.calls[c].pc.Writing?
    case Validate(c, _) => c in s.calls && s.calls[c].pc.Written?
    case Commit(c) => c in s.calls && s.calls[c].pc.Valid?
    case RemoveTemp(c, _) => c in s.calls && s.calls[c].pc.Removing?
  }

  function VerdictFor(s: State, c: CallId): Verdict
    requires c in s.calls
  {
    Judge(s.uploads, s.calls[c].token, s.calls[c].templateId, s.calls[c].hash, s.now)
  }

  function NextPc(s: State, c: CallId, step: Step): CallPc
    requires c in s.calls
  {
    var call := s.calls[c];
    match step
    case Admit(_) => if VerdictFor(s, c).Granted? then Admitted else Done(Rejected)
    case CreateTemp(_, path) => Writing(path)
    case FailCreate(_) => Done(Failed(WriteFailed))
    case Write(_, size, digest) =>
      if call.pc.Writing? then Written(File(call.templateId, call.hash, call.pc.path, size, digest)) else call.pc
    case FailWrite(_) => if call.pc.Writing? then Removing(call.pc.path, Failed(WriteFailed)) else call.pc
    case Validate(_, archiveOk) =>
      if !call.pc.Written? then call.pc
      else if !HashAccepts(call.hash, call.pc.file.digest) then Removing(call.pc.file.path, Failed(HashMismatch))
      else if !archiveOk then Removing(call.pc.file.path, Failed(BadArchive))
      else Valid(call.pc.file)
    case Commit(_) =>
      if !call.pc.Valid? then call.pc
      else
        var answer := CommitAnswer(s.files, VerdictFor(s, c), call.pc.file);
        if answer.Accepted? && TemplateFileKey(call.templateId, call.hash) !in s.files then Done(answer)
        else Removing(call.pc.file.path, answer)
    case RemoveTemp(_, _) => if call.pc.Removing? then Done(call.pc.answer) else call.pc
    case _ => call.pc
  }

  /** The call a step advances. */
  function Subject(step: Step): set<CallId> {
    match step
    case Tick(_) => {}
    case CreateUpload(_, _, _) => {}
    case Begin(_, _, _, _) => {}
    case _ => {step.c}
  }

  function NextCalls(s: State, step: Step): map<CallId, Call>
    requires Enabled(s, step)
  {
    match step
    case Tick(_) => s.calls
    case CreateUpload(_, _, _) => s.calls
    case Begin(c, token, templateId, hash) =>
      s.calls[c := Call(TrimSpace(token), TrimSpace(templateId), TrimSpace(hash), "", Start)]
    case Write(c, _, digest) => s.calls[c := s.calls[c].(pc := NextPc(s, c, step), digest := digest)]
    case _ => s.calls[step.c := s.calls[step.c].(pc := NextPc(s, step.c, step))]
  }

  function NextUploads(s: State, step: Step): map<Token, Upload>
    requires Enabled(s, step)
  {
    match step
    case CreateUpload(token, templateId, hash) =>
      s.uploads[token := Upload(TrimSpace(templateId), TrimSpace(hash), s.now + TOKEN_LIFETIME)]
    case Admit(c) => Swept(s.uploads, s.calls[c].token, s.now)
    case Commit(c) =>
      Consumed(s.uploads, s.calls[c].token, s.now, CommitAnswer(s.files, VerdictFor(s, c), s.calls[c].pc.file))
    case _ => s.uploads
  }

  function NextFiles(s: State, step: Step): map<string, File>
    requires Enabled(s, step)
  {
    if step.Commit? then Committed(s.files, VerdictFor(s, step.c), s.calls[step.c].pc.file) else s.files
  }

  function NextDisk(s: State, step: Step): set<Path>
    requires Enabled(s, step)
  {
    match step
    case CreateTemp(_, path) => s.disk + {path}
    case RemoveTemp(c, ok) => if ok then s.disk - {s.calls[c].pc.path} else s.disk
    case _ => s.disk
  }

  function NextLeftover(s: State, step: Step): set<Path>
    requires Enabled(s, step)
  {
    if step.RemoveTemp? && !step.ok then s.leftover + {s.calls[step.c].pc.path} else s.leftover
  }

  function Apply(s: State, step: Step): State
    requires Enabled(s, step)
  {
    State(if step.Tick? then step.now else s.now,
          NextUploads(s, step),
          if step.CreateUpload? then s.issued + {step.token} else s.issued,
          NextFiles(s, step),
          NextDisk(s, step),
          NextLeftover(s, step),
          NextCalls(s, step))
  }

  predicate Init(s: State) {
    s.uploads == map[] && s.issued == {} && s.files == map[] && s.disk == {} && s.leftover == {} && s.calls == map[]
  }

  ghost predicate Run(s: State, steps: seq<Step>, end: State)
    decreases |steps|
  {
    if steps == [] then end == s else Enabled(s, steps[0]) && Run(Apply(s, steps[0]), steps[1..], end)
  }

  // ---------------------------------------------------------------- what every step keeps

  /** The temporary file a call still has to store or remove. */
  function Held(pc: CallPc): set<Path> {
    match pc
    case Writing(path) => {path}
    case Written(file) => {file.path}
    case Valid(file) => {file.path}
    case Removing(path, _) => {path}
    case _ => {}
  }

  predicate Succeeded(pc: CallPc) {
    (pc.Removing? || pc.Done?) && pc.answer.Accepted?
  }

  ghost predicate FileFits(key: string, file: File) {
    && key == TemplateFileKey(file.templateId, file.hash)
    && 0 < file.size <= MAX_UPLOAD_BYTES
    && HashAccepts(file.hash, file.digest)
  }

  ghost predicate CallFits(s: State, call: Call) {
    && ((call.pc.Written? || call.pc.Valid?) ==>
          && call.pc.file.templateId == call.templateId && call.pc.file.hash == call.hash
          && call.pc.file.digest == call.digest && 0 < call.pc.file.size <= MAX_UPLOAD_BYTES)
    && (call.pc.Valid? ==> HashAccepts(call.hash, call.digest))
    && (Succeeded(call.pc) ==>
          && call.token in s.issued && call.token !in s.uploads
          && Holds(s.files, TemplateFileKey(call.templateId, call.hash), call.digest))
  }

  /** The content with this digest is what is stored under the key. */
  predicate Holds(files: map<string, File>, key: string, digest: string) {
    key in files && files[key].digest == digest
  }

  ghost predicate EntriesInv(s: State) {
    && s.uploads.Keys <= s.issued
    && (forall key :: key in s.files ==> FileFits(key, s.files[key]))
    && (forall c :: c in s.calls ==> CallFits(s, s.calls[c]))
  }

  ghost predicate OnceInv(s: State) {
    forall c, d ::
      (c in s.calls && d in s.calls && Succeeded(s.calls[c].pc) && Succeeded(s.calls[d].pc)
       && s.calls[c].token == s.calls[d].token) ==> c == d
  }

  /** What a file on disk belongs to: a stored entry, a call, or nothing any more. */
  datatype Owner = Entry(key: string) | InFlight(c: CallId) | Nobody(path: Path)

  ghost predicate Owns(s: State, owner: Owner, path: Path) {
    match owner
    case Entry(key) => key in s.files && s.files[key].path == path
    case InFlight(c) => c in s.calls && path in Held(s.calls[c].pc)
    case Nobody(left) => left == path && path in s.leftover
  }

  ghost predicate DiskInv(s: State) {
    && (forall path :: path in s.disk ==> exists owner :: Owns(s, owner, path))
    && (forall owner, path :: Owns(s, owner, path) ==> path in s.disk)
    && (forall a, b, path :: Owns(s, a, path) && Owns(s, b, path) ==> a == b)
  }

  ghost predicate Inv(s: State) {
    EntriesInv(s) && OnceInv(s) && DiskInv(s)
  }

  // ---------------------------------------------------------------- proofs, one step

  lemma FilesGrow(s: State, step: Step)
    requires Enabled(s, step)
    ensures forall key :: key in s.files ==> key in Apply(s, step).files && Apply(s, step).files[key] == s.files[key]
  {
  }

  lemma OthersStay(s: State, step: Step, c: CallId)
    requires Enabled(s, step) && c in Apply(s, step).calls && c !in Subject(step)
    ensures c in s.calls ==> Apply(s, step).calls[c] == s.calls[c]
    ensures c !in s.calls ==> step.Begin? && Apply(s, step).calls[c].pc == Start
  {
  }

  lemma SubjectMoves(s: State, step: Step, c: CallId)
    requires Enabled(s, step) && c in Subject(step)
    ensures c in s.calls && c in Apply(s, step).calls
    ensures var call' := Apply(s, step).calls[c];
            && call'.token == s.calls[c].token && call'.templateId == s.calls[c].templateId
            && call'.hash == s.calls[c].hash && call'.pc == NextPc(s, c, step)
            && call'.digest == if step.Write? then step.digest else s.calls[c].digest
  {
  }

  lemma UploadsShrink(s: State, step: Step, token: Token)
    requires Enabled(s, step) && token in s.issued && token !in s.uploads
    ensures token !in Apply(s, step).uploads
  {
  }

  lemma SubjectFits(s: State, step: Step, c: CallId)
    requires Enabled(s, step) && c in Subject(step) && c in s.calls && CallFits(s, s.calls[c])
    requires s.uploads.Keys <= s.issued
    ensures c in Apply(s, step).calls && CallFits(Apply(s, step), Apply(s, step).calls[c])
  {
    SubjectMoves(s, step, c);
    FilesGrow(s, step);
  }

  lemma OtherFits(s: State, step: Step, call: Call)
    requires Enabled(s, step) && CallFits(s, call)
    ensures CallFits(Apply(s, step), call)
  {
    FilesGrow(s, step);
    if Succeeded(call.pc) {
      UploadsShrink(s, step, call.token);
    }
  }

  lemma NewFileFits(s: State, step: Step, key: string)
    requires EntriesInv(s) && Enabled(s, step) && key in Apply(s, step).files
    ensures FileFits(key, Apply(s, step).files[key])
  {
    if key !in s.files {
      assert CallFits(s, s.calls[step.c]);
    }
  }

  lemma EntriesStep(s: State, step: Step)
    requires EntriesInv(s) && Enabled(s, step)
    ensures EntriesInv(Apply(s, step))
  {
    var s' := Apply(s, step);
    forall key | key in s'.files ensures FileFits(key, s'.files[key]) {
      NewFileFits(s, step, key);
    }
    forall c | c in s'.calls ensures CallFits(s', s'.calls[c]) {
      if c in Subject(step) {
        SubjectMoves(s, step, c);
        SubjectFits(s, step, c);
      } else {
        OthersStay(s, step, c);
        if c in s.calls {
          OtherFits(s, step, s.calls[c]);
        }
      }
    }
  }

  /** A call that has just succeeded found its token pending. */
  lemma SuccessNeedsToken(s: State, step: Step, c: CallId)
    requires Enabled(s, step) && c in Apply(s, step).calls && Succeeded(Apply(s, step).calls[c].pc)
    ensures c in s.calls && Apply(s, step).calls[c].token == s.calls[c].token
    ensures Succeeded(s.calls[c].pc) || (step == Commit(c) && s.calls[c].token in s.uploads)
  {
    if c in Subject(step) {
      SubjectMoves(s, step, c);
    } else {
      OthersStay(s, step, c);
    }
  }

  lemma OnceStep(s: State, step: Step)
    requires EntriesInv(s) && OnceInv(s) && Enabled(s, step)
    ensures OnceInv(Apply(s, step))
  {
    var s' := Apply(s, step);
    forall c, d | c in s'.calls && d in s'.calls && Succeeded(s'.calls[c].pc) && Succeeded(s'.calls[d].pc)
                  && s'.calls[c].token == s'.calls[d].token
      ensures c == d
    {
      SuccessNeedsToken(s, step, c);
      SuccessNeedsToken(s, step, d);
      assert CallFits(s, s.calls[c]) && CallFits(s, s.calls[d]);
    }
  }

  // ---------------------------------------------------------------- proofs, ownership of the files on disk

  /** Where a file on disk goes in a step: a new one belongs to its writer, a committed one passes from the call to the
      entry, a removed one is gone, and any other stays. */
  function OwnerBefore(s: State, step: Step, owner: Owner): Owner
    requires Enabled(s, step)
  {
    if owner.Entry? && owner.key !in s.files && step.Commit? then InFlight(step.c)
    else if owner.Nobody? && owner.path !in s.leftover && step.RemoveTemp? then InFlight(step.c)
    else owner
  }

  lemma CallsMove(s: State, step: Step, c: CallId, path: Path)
    requires EntriesInv(s) && Enabled(s, step) && Owns(Apply(s, step), InFlight(c), path)
    ensures Owns(s, InFlight(c), path) || step == CreateTemp(c, path)
    ensures step.RemoveTemp? ==> step.c != c
    ensures step == Commit(c) ==> NextFiles(s, step) == s.files
  {
    assert step.Commit? ==> CallFits(s, s.calls[step.c]);
    if c in Subject(step) {
      SubjectMoves(s, step, c);
    } else {
      OthersStay(s, step, c);
    }
  }

  lemma OwnersMove(s: State, step: Step, owner: Owner, path: Path)
    requires EntriesInv(s) && Enabled(s, step) && Owns(Apply(s, step), owner, path)
    ensures Owns(s, OwnerBefore(s, step, owner), path) || (step.CreateTemp? && step.path == path && owner == InFlight(step.c))
    ensures step.RemoveTemp? ==> owner != InFlight(step.c)
    ensures step.Commit? && owner == InFlight(step.c) ==> NextFiles(s, step) == s.files
  {
    if owner.InFlight? {
      CallsMove(s, step, owner.c, path);
    }
  }

  lemma SoleOwnerStep(s: State, step: Step, a: Owner, b: Owner, path: Path)
    requires EntriesInv(s) && DiskInv(s) && Enabled(s, step)
    requires Owns(Apply(s, step), a, path) && Owns(Apply(s, step), b, path)
    ensures a == b
  {
    OwnersMove(s, step, a, path);
    OwnersMove(s, step, b, path);
    var a0, b0 := OwnerBefore(s, step, a), OwnerBefore(s, step, b);
    if Owns(s, a0, path) && Owns(s, b0, path) {
      assert a0 == b0;
    }
  }

  lemma OwnedStaysOnDisk(s: State, step: Step, owner: Owner, path: Path)
    requires EntriesInv(s) && DiskInv(s) && Enabled(s, step) && Owns(Apply(s, step), owner, path)
    ensures path in Apply(s, step).disk
  {
    OwnersMove(s, step, owner, path);
    if Owns(s, OwnerBefore(s, step, owner), path) && step.RemoveTemp? {
      assert Owns(s, InFlight(step.c), s.calls[step.c].pc.path);
    }
  }

  /** The owner after a step of a file that is still on disk. */
  lemma OwnerAfter(s: State, step: Step, owner: Owner, path: Path) returns (owner': Owner)
    requires EntriesInv(s) && DiskInv(s) && Enabled(s, step) && Owns(s, owner, path) && path in Apply(s, step).disk
    ensures Owns(Apply(s, step), owner', path)
  {
    owner' := owner;
    if owner.InFlight? && owner.c in Subject(step) {
      var c := owner.c;
      SubjectMoves(s, step, c);
      assert CallFits(s, s.calls[c]);
      if step.Commit? && NextPc(s, c, step).Done? {
        owner' := Entry(TemplateFileKey(s.calls[c].templateId, s.calls[c].hash));
      }
      if step.RemoveTemp? {
        owner' := Nobody(path);
      }
    } else if owner.Entry? {
      FilesGrow(s, step);
    }
  }

  lemma DiskStep(s: State, step: Step)
    requires EntriesInv(s) && DiskInv(s) && Enabled(s, step)
    ensures DiskInv(Apply(s, step))
  {
    var s' := Apply(s, step);
    forall path | path in s'.disk ensures exists owner :: Owns(s', owner, path) {
      if path in s.disk {
        var owner :| Owns(s, owner, path);
        var owner' := OwnerAfter(s, step, owner, path);
      } else {
        assert Owns(s', InFlight(step.c), path);
      }
    }
    forall owner, path | Owns(s', owner, path) ensures path in s'.disk {
      OwnedStaysOnDisk(s, step, owner, path);
    }
    forall a, b, path | Owns(s', a, path) && Owns(s', b, path) ensures a == b {
      SoleOwnerStep(s, step, a, b, path);
    }
  }

  // ---------------------------------------------------------------- over whole runs

  lemma {:induction false} InvOnRuns(s: State, steps: seq<Step>, end: State)
    requires Inv(s) && Run(s, steps, end)
    ensures Inv(end)
    decreases |steps|
  {
    if steps != [] {
      EntriesStep(s, steps[0]);
      OnceStep(s, steps[0]);
      DiskStep(s, steps[0]);
      InvOnRuns(Apply(s, steps[0]), steps[1..], end);
    }
  }

  ghost predicate Reachable(s: State) {
    exists start: State, steps: seq<Step> :: Init(start) && Run(start, steps, s)
  }

  lemma ReachableInv(s: State)
    requires Reachable(s)
    ensures Inv(s)
  {
    var start, steps :| Init(start) && Run(start, steps, s);
    InvOnRuns(start, steps, s);
  }

  /** When a call is accepted: as it commits its valid file, its token must be pending for the same template and hash, and not
      expired; and its key must be free, or have the same content. A token for something else, or expired by then, is
      rejected, and other content under the key is a conflict. The key has a file from then on. */
  lemma AcceptedExactlyWhen(s: State, c: CallId)
    requires Reachable(s) && Enabled(s, Commit(c))
    ensures var s', call, file := Apply(s, Commit(c)), s.calls[c], s.calls[c].pc.file;
            var key := TrimSpace(call.templateId) + "/" + TrimSpace(call.hash);
            var good := && call.token in s.uploads && s.now <= s.uploads[call.token].expiresAt
                        && s.uploads[call.token].templateId == call.templateId && s.uploads[call.token].hash == call.hash;
            && c in s'.calls
            && s'.calls[c].pc == (if good && key !in s.files then Done(Accepted)
                                  else if !good then Removing(file.path, Rejected)
                                  else if s.files[key].digest == call.digest then Removing(file.path, Accepted)
                                  else Removing(file.path, Failed(Conflict)))
            && s'.files == (if good && key !in s.files
                            then s.files[key := File(call.templateId, call.hash, file.path, file.size, call.digest)]
                            else s.files)
  {
    ReachableInv(s);
    assert CallFits(s, s.calls[c]);
  }

  /** The check before the upload asks the same of the token; content is then accepted exactly if it fits the hash and is a
      good archive. */
  lemma CheckedExactlyWhen(s: State, c: CallId, archiveOk: bool)
    requires Reachable(s)
    ensures Enabled(s, Admit(c)) ==>
              var call := s.calls[c];
              && c in Apply(s, Admit(c)).calls
              && Apply(s, Admit(c)).calls[c].pc ==
                   if && call.token in s.uploads && s.now <= s.uploads[call.token].expiresAt
                      && s.uploads[call.token].templateId == call.templateId && s.uploads[call.token].hash == call.hash
                   then Admitted else Done(Rejected)
    ensures Enabled(s, Validate(c, archiveOk)) ==>
              var call, path := s.calls[c], s.calls[c].pc.file.path;
              && c in Apply(s, Validate(c, archiveOk)).calls
              && Apply(s, Validate(c, archiveOk)).calls[c].pc ==
                   if IsDigest(DigestPart(call.hash)) && DigestPart(call.hash) != call.digest
                   then Removing(path, Failed(HashMismatch))
                   else if !archiveOk then Removing(path, Failed(BadArchive)) else Valid(call.pc.file)
  {
    ReachableInv(s);
    assert c in s.calls ==> CallFits(s, s.calls[c]);
  }

  /** A stored build file never changes and never goes away. */
  lemma {:induction false} StoredFilesNeverChange(s: State, steps: seq<Step>, end: State, key: string)
    requires Run(s, steps, end) && key in s.files
    ensures key in end.files && end.files[key] == s.files[key]
    decreases |steps|
  {
    if steps != [] {
      FilesGrow(s, steps[0]);
      StoredFilesNeverChange(Apply(s, steps[0]), steps[1..], end, key);
    }
  }

  /** A token serves one successful call, however many pass the first check with it; and the content of a successful
      call is what is stored from then on. */
  lemma TokenServesOnce(s: State, c: CallId, d: CallId)
    requires Reachable(s) && c in s.calls && d in s.calls
    requires s.calls[c].pc == Done(Accepted) && s.calls[d].pc == Done(Accepted) && s.calls[c].token == s.calls[d].token
    ensures c == d
    ensures Holds(s.files, TemplateFileKey(s.calls[c].templateId, s.calls[c].hash), s.calls[c].digest)
  {
    ReachableInv(s);
    assert CallFits(s, s.calls[c]);
  }

  ghost predicate Idle(s: State) {
    forall c :: c in s.calls ==> s.calls[c].pc.Done?
  }

  /** Nothing leaks but by a failed removal: a file on disk belongs to exactly one stored entry or call in flight, or its
      removal failed, and what is owned is there; with no call in flight, each file on disk is the path of exactly one
      entry, or one that could not be removed. */
  lemma EveryFileHasOneOwner(s: State, path: Path)
    requires Reachable(s)
    ensures path in s.disk <==> exists owner :: Owns(s, owner, path)
    ensures forall a, b :: Owns(s, a, path) && Owns(s, b, path) ==> a == b
    ensures Idle(s) && path in s.disk ==>
              (exists key :: key in s.files && s.files[key].path == path) || path in s.leftover
    ensures path in s.leftover ==> forall key :: key in s.files ==> s.files[key].path != path
  {
    ReachableInv(s);
    if Idle(s) && path in s.disk {
      var owner :| Owns(s, owner, path);
      assert !owner.InFlight?;
    }
    if path in s.leftover {
      forall key | key in s.files ensures s.files[key].path != path {
        assert Owns(s, Nobody(path), path) && Owns(s, Entry(key), s.files[key].path);
      }
    }
  }

  /** A file stored under a cache key that is a SHA-256 sum has that sum, and is not empty or too large. */
  lemma StoredFilesMatchTheirHash(s: State, key: string)
    requires Reachable(s) && key in s.files
    ensures IsDigest(DigestPart(s.files[key].hash)) ==> s.files[key].digest == DigestPart(s.files[key].hash)
    ensures 0 < s.files[key].size <= 512 * 1024 * 1024
    ensures key == TemplateFileKey(s.files[key].templateId, s.files[key].hash)
  {
    ReachableInv(s);
    assert FileFits(key, s.files[key]);
  }

  // ---------------------------------------------------------------- keys

  lemma {:induction false} SplitAtSlash(t: string, h: string, u: string, g: string)
    requires '/' !in t && '/' !in u && t + "/" + h == u + "/" + g
    ensures t == u && h == g
  {
    var key := t + "/" + h;
    assert forall i :: 0 <= i < |t| ==> key[i] == t[i];
    assert key == u + "/" + g && forall i :: 0 <= i < |u| ==> key[i] == u[i];
    assert key[|t|] == '/' && key[|u|] == '/';
    assert (t + "/" + h)[..|t|] == t && (u + "/" + g)[..|u|] == u;
    assert (t + "/" + h)[|t| + 1..] == h && (u + "/" + g)[|u| + 1..] == g;
  }

  /** Looking up a template's file finds that template's file if its ID has no slash, nor has the stored one's. */
  lemma LookupFindsOwnFile(s: State, templateId: string, hash: string)
    requires Reachable(s) && TemplateFileKey(templateId, hash) in s.files
    requires '/' !in TrimSpace(templateId) && '/' !in TrimSpace(s.files[TemplateFileKey(templateId, hash)].templateId)
    ensures var file := s.files[TemplateFileKey(templateId, hash)];
            TrimSpace(file.templateId) == TrimSpace(templateId) && TrimSpace(file.hash) == TrimSpace(hash)
  {
    var file := s.files[TemplateFileKey(templateId, hash)];
    StoredFilesMatchTheirHash(s, TemplateFileKey(templateId, hash));
    SplitAtSlash(TrimSpace(templateId), TrimSpace(hash), TrimSpace(file.templateId), TrimSpace(file.hash));
  }

  /** Whether a key can be split at `i` into a trimmed ID and a trimmed hash. */
  predicate SplitsAt(key: string, i: int) {
    0 <= i < |key| && key[i] == '/' && Trimmed(key[..i]) && Trimmed(key[i + 1..])
  }

  predicate SplitsOnce(templateId: string, hash: string) {
    var key := TemplateFileKey(templateId, hash);
    forall i | 0 <= i < |key| :: SplitsAt(key, i) ==> i == |TrimSpace(templateId)|
  }

  ghost predicate StandsForOne(templateId: string, hash: string) {
    forall t, h :: TemplateFileKey(t, h) == TemplateFileKey(templateId, hash) ==>
      TrimSpace(t) == TrimSpace(templateId) && TrimSpace(h) == TrimSpace(hash)
  }

  /** A key stands for one template and hash exactly if it can be split in one place only. */
  lemma KeyIsUniqueExactlyWhen(templateId: string, hash: string)
    ensures StandsForOne(templateId, hash) <==> SplitsOnce(templateId, hash)
  {
    var key := TemplateFileKey(templateId, hash);
    KeySplits(templateId, hash);
    if SplitsOnce(templateId, hash) {
      forall t, h | TemplateFileKey(t, h) == key
        ensures TrimSpace(t) == TrimSpace(templateId) && TrimSpace(h) == TrimSpace(hash)
      {
        KeySplits(t, h);
      }
    }
    if StandsForOne(templateId, hash) {
      forall i | 0 <= i < |key| && SplitsAt(key, i) ensures i == |TrimSpace(templateId)| {
        SplitIsAnother(key, i);
      }
    }
  }

  lemma SplitIsAnother(key: string, i: int)
    requires SplitsAt(key, i)
    ensures TemplateFileKey(key[..i], key[i + 1..]) == key && |TrimSpace(key[..i])| == i
  {
    TrimmedStays(key[..i]);
    TrimmedStays(key[i + 1..]);
    assert key == key[..i] + "/" + key[i + 1..];
  }

  lemma KeySplits(templateId: string, hash: string)
    ensures SplitsAt(TemplateFileKey(templateId, hash), |TrimSpace(templateId)|)
    ensures TemplateFileKey(templateId, hash)[..|TrimSpace(templateId)|] == TrimSpace(templateId)
    ensures TemplateFileKey(templateId, hash)[|TrimSpace(templateId)| + 1..] == TrimSpace(hash)
  {
    TrimSpaceTrims(templateId);
    TrimSpaceTrims(hash);
  }

  /** With a slash in the ID, two templates can share a key. */
  lemma SlashesCollide()
    ensures TemplateFileKey("a/b", "c") == TemplateFileKey("a", "b/c")
  {
    assert TrimSpace("a/b") == "a/b" && TrimSpace("b/c") == "b/c";
    assert TrimSpace("a") == "a" && TrimSpace("c") == "c";
    assert "a/b" + "/" + "c" == "a" + "/" + "b/c";
  }
}

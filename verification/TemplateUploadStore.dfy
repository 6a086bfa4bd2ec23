/** The upload half of the management store as a heap object, with the temporary directory it writes to
    (internal/gateway/management_store.go). */
module TemplateUploadStore {
  import opened Strings
  import opened TemplateUploads

  /** What came of reading the request body into a temporary file: all of it, a part, or no file at all. */
  datatype Written = Complete(size: nat, digest: string, archiveOk: bool) | Broken | NotCreated

  /** Whether a token is pending for a template and hash. */
  predicate Pending(uploads: map<Token, Upload>, token: Token, templateId: string, hash: string, now: nat) {
    && token in uploads && now <= uploads[token].expiresAt
    && uploads[token].templateId == templateId && uploads[token].hash == hash
  }

  /** The answer of a call that nothing interrupts, its arguments trimmed: `first` and `second` say whether its token is pending
      at either check. */
  function AnswerTo(first: bool, second: bool, written: Written, hash: string, files: map<string, File>, key: string): Answer {
    if !first then Rejected
    else if !written.Complete? then Failed(WriteFailed)
    else if !HashAccepts(hash, written.digest) then Failed(HashMismatch)
    else if !written.archiveOk then Failed(BadArchive)
    else if !second then Rejected
    else if key in files && files[key].digest != written.digest then Failed(Conflict)
    else Accepted
  }

  /** A token goes when it is used, or is found expired by the last check made. */
  predicate Spends(uploads: map<Token, Upload>, uploads': map<Token, Upload>, token: Token, lastCheck: nat, answer: Answer) {
    uploads' == if answer.Accepted? || (token in uploads && uploads[token].expiresAt < lastCheck) then uploads - {token}
                else uploads
  }

  /** What a whole call that nothing interrupts makes of the pending uploads, the stored files and the temporary directory. */
  ghost predicate Stores(uploads: map<Token, Upload>, files: map<string, File>, disk: set<Path>,
      uploads': map<Token, Upload>, files': map<string, File>, disk': set<Path>, templateId: string, hash: string, token: Token,
      path: Path, written: Written, checkedAt: nat, committedAt: nat, removable: bool, answer: Answer)
  {
    var first, second := Pending(uploads, token, templateId, hash, checkedAt), Pending(uploads, token, templateId, hash, committedAt);
    var key := TrimSpace(templateId) + "/" + TrimSpace(hash);
    var checksAgain := first && written.Complete? && HashAccepts(hash, written.digest) && written.archiveOk;
    var stored := answer.Accepted? && key !in files;
    && answer == AnswerTo(first, second, written, hash, files, key)
    && (stored ==> written.Complete?)
    && files' == (if stored then files[key := File(templateId, hash, path, written.size, written.digest)] else files)
    && Spends(uploads, uploads', token, if checksAgain then committedAt else checkedAt, answer)
    && disk' == (if stored || (first && !written.NotCreated? && !removable) then disk + {path} else disk)
  }

  class TemplateUploadStore {
    var uploads: map<Token, Upload>
    var files: map<string, File>
    var disk: set<Path>

    constructor ()
      ensures uploads == map[] && files == map[] && disk == {}
    {
      uploads, files, disk := map[], map[], {};
    }

    /** `token` is the random secret drawn for the upload. */
    method CreateTemplateFileUpload(templateId: string, hash: string, token: Token, now: nat)
      requires token !in uploads
      modifies this`uploads
      ensures uploads == old(uploads)[token := Upload(TrimSpace(templateId), TrimSpace(hash), now + TOKEN_LIFETIME)]
      ensures Judge(uploads, token, TrimSpace(templateId), TrimSpace(hash), now + 15 * 60) == Granted
      ensures Judge(uploads, token, TrimSpace(templateId), TrimSpace(hash), now + 15 * 60 + 1) == Expired
    {
      uploads := uploads[token := Upload(TrimSpace(templateId), TrimSpace(hash), now + TOKEN_LIFETIME)];
    }

    /** Either critical section's check. */
    method Check(token: Token, templateId: string, hash: string, now: nat) returns (granted: bool)
      modifies this`uploads
      ensures granted <==> Judge(old(uploads), token, templateId, hash, now).Granted?
      ensures uploads == Swept(old(uploads), token, now)
    {
      if token !in uploads {
        return false;
      }
      var upload := uploads[token];
      if now > upload.expiresAt {
        uploads := uploads - {token};
        return false;
      }
      return upload.templateId == templateId && upload.hash == hash;
    }

    /** The second critical section; `keep` says that the temporary file is now the stored one. */
    method Commit(token: Token, file: File, now: nat) returns (answer: Answer, keep: bool)
      modifies this`uploads, this`files
      ensures var verdict := Judge(old(uploads), token, file.templateId, file.hash, now);
              && answer == CommitAnswer(old(files), verdict, file)
              && files == Committed(old(files), verdict, file)
              && uploads == Consumed(old(uploads), token, now, answer)
      ensures keep <==> files != old(files)
    {
      var granted := Check(token, file.templateId, file.hash, now);
      if !granted {
        return Rejected, false;
      }
      var key := TemplateFileKey(file.templateId, file.hash);
      if key in files {
        if files[key].digest == file.digest {
          uploads := uploads - {token};
          return Accepted, false;
        }
        return Failed(Conflict), false;
      }
      files := files[key := file];
      uploads := uploads - {token};
      assert key in files && key !in old(files);
      return Accepted, true;
    }

    /** os.Remove with its error ignored. */
    method Discard(path: Path, removable: bool)
      modifies this`disk
      ensures disk == if removable then old(disk) - {path} else old(disk)
    {
      if removable {
        disk := disk - {path};
      }
    }

    /** A whole call that nothing interrupts; `removable` is whether its temporary file can be removed. Only an accepted
        upload changes what is stored, and only under its own key; a temporary file stays if and only if it became the
        stored one or cannot be removed. */
    method StoreTemplateFileUploadReader(id: string, sum: string, secret: Token, path: Path, written: Written,
        checkedAt: nat, committedAt: nat, removable: bool) returns (answer: Answer)
      requires path !in disk && checkedAt <= committedAt
      requires written.Complete? ==> 0 < written.size <= MAX_UPLOAD_BYTES
      modifies this
      ensures answer.Accepted? ==>
                && written.Complete? && written.archiveOk && HashAccepts(TrimSpace(sum), written.digest)
                && Holds(files, TemplateFileKey(id, sum), written.digest)
                && TrimSpace(secret) in old(uploads) && TrimSpace(secret) !in uploads
      ensures files == old(files) || (answer.Accepted? && files ==
                old(files)[TemplateFileKey(id, sum) :=
                  File(TrimSpace(id), TrimSpace(sum), path, written.size, written.digest)])
      ensures Stores(old(uploads), old(files), old(disk), uploads, files, disk, TrimSpace(id), TrimSpace(sum), TrimSpace(secret),
                     path, written, checkedAt, committedAt, removable, answer)
      ensures forall key :: key in old(files) ==> key in files && files[key] == old(files)[key]
      ensures var created := Judge(old(uploads), TrimSpace(secret), TrimSpace(id), TrimSpace(sum), checkedAt).Granted?
                             && !written.NotCreated?;
              disk == if files != old(files) || (created && !removable) then old(disk) + {path} else old(disk)
      ensures forall t :: t in old(uploads) && t != TrimSpace(secret) ==> t in uploads && uploads[t] == old(uploads)[t]
      ensures answer.Failed? ==> uploads == old(uploads)
    {
      TrimSpaceTrims(id);
      TrimSpaceTrims(sum);
      var templateId, hash, token := TrimSpace(id), TrimSpace(sum), TrimSpace(secret);
      var granted := Check(token, templateId, hash, checkedAt);
      if !granted {
        return Rejected;
      }
      if written.NotCreated? {
        return Failed(WriteFailed);
      }
      disk := disk + {path};
      if written.Broken? {
        Discard(path, removable);
        return Failed(WriteFailed);
      }
      if !HashAccepts(hash, written.digest) {
        Discard(path, removable);
        return Failed(HashMismatch);
      }
      if !written.archiveOk {
        Discard(path, removable);
        return Failed(BadArchive);
      }
      var keep;
      answer, keep := Commit(token, File(templateId, hash, path, written.size, written.digest), committedAt);
      if !keep {
        Discard(path, removable);
      }
    }
  }

  // ---------------------------------------------------------------- one call in the protocol

  predicate IsOf(step: Step, c: CallId) {
    match step
    case Begin(c', _, _, _) => c' == c
    case Tick(_) => true
    case CreateUpload(_, _, _) => false
    case _ => step.c == c
  }

  ghost predicate Alone(steps: seq<Step>, c: CallId) {
    forall i :: 0 <= i < |steps| ==> IsOf(steps[i], c)
  }

  /** `end` is reached while only call `c` and the clock move. */
  ghost predicate Leads(s: State, c: CallId, end: State) {
    exists steps :: Alone(steps, c) && Run(s, steps, end)
  }

  lemma Arrived(s: State, c: CallId)
    ensures Leads(s, c, s)
  {
    assert Run(s, [], s) && Alone([], c);
  }

  lemma StepLeads(s: State, step: Step, c: CallId, end: State)
    requires Enabled(s, step) && IsOf(step, c) && Leads(Apply(s, step), c, end)
    ensures Leads(s, c, end)
  {
    var steps :| Alone(steps, c) && Run(Apply(s, step), steps, end);
    assert ([step] + steps)[1..] == steps;
    assert Alone([step] + steps, c) && Run(s, [step] + steps, end);
  }

  /** The store's part of a state, with one call in it. */
  ghost predicate AtCall(s: State, c: CallId, call: Call, uploads: map<Token, Upload>, files: map<string, File>, disk: set<Path>) {
    c in s.calls && s.calls[c] == call && s.uploads == uploads && s.files == files && s.disk == disk
  }

  lemma RemovingLeads(s: State, c: CallId, path: Path, answer: Answer, removable: bool) returns (end: State)
    requires c in s.calls && s.calls[c].pc == Removing(path, answer)
    ensures Leads(s, c, end)
    ensures AtCall(end, c, s.calls[c].(pc := Done(answer)), s.uploads, s.files, if removable then s.disk - {path} else s.disk)
  {
    end := Apply(s, RemoveTemp(c, removable));
    Arrived(end, c);
    StepLeads(s, RemoveTemp(c, removable), c, end);
  }

  /** From a valid file: the second check, and what comes of it. */
  lemma ValidLeads(s: State, c: CallId, file: File, committedAt: nat, removable: bool) returns (end: State)
    requires c in s.calls && s.calls[c].pc == Valid(file) && s.now <= committedAt
    requires file.templateId == s.calls[c].templateId && file.hash == s.calls[c].hash
    ensures Leads(s, c, end) && c in end.calls && end.calls[c].pc.Done?
    ensures var call, answer := s.calls[c], end.calls[c].pc.answer;
            var second := Pending(s.uploads, call.token, call.templateId, call.hash, committedAt);
            var key := TrimSpace(call.templateId) + "/" + TrimSpace(call.hash);
            && answer == (if !second then Rejected
                          else if key in s.files && s.files[key].digest != file.digest then Failed(Conflict) else Accepted)
            && end.files == (if answer.Accepted? && key !in s.files then s.files[key := file] else s.files)
            && Spends(s.uploads, end.uploads, call.token, committedAt, answer)
            && end.disk == (if (answer.Accepted? && key !in s.files) || !removable then s.disk else s.disk - {file.path})
  {
    var later := Apply(s, Tick(committedAt));
    var next := Apply(later, TemplateUploads.Commit(c));
    if next.calls[c].pc.Done? {
      end := next;
      Arrived(end, c);
    } else {
      end := RemovingLeads(next, c, file.path, next.calls[c].pc.answer, removable);
    }
    StepLeads(later, TemplateUploads.Commit(c), c, end);
    StepLeads(s, Tick(committedAt), c, end);
  }

  /** From the new temporary file: what has come into it is checked, and committed or removed. */
  lemma WritingLeads(s: State, c: CallId, path: Path, written: Written, committedAt: nat, removable: bool) returns (end: State)
    requires c in s.calls && s.calls[c].pc == Writing(path) && s.now <= committedAt && !written.NotCreated?
    requires written.Complete? ==> 0 < written.size <= MAX_UPLOAD_BYTES
    ensures Leads(s, c, end) && c in end.calls && end.calls[c].pc.Done?
    ensures var call, answer := s.calls[c], end.calls[c].pc.answer;
            var second := Pending(s.uploads, call.token, call.templateId, call.hash, committedAt);
            var key := TrimSpace(call.templateId) + "/" + TrimSpace(call.hash);
            var checksAgain := written.Complete? && HashAccepts(call.hash, written.digest) && written.archiveOk;
            var stored := answer.Accepted? && key !in s.files;
            && answer == AnswerTo(true, second, written, call.hash, s.files, key)
            && (stored ==> written.Complete?)
            && end.files == (if stored
                             then s.files[key := File(call.templateId, call.hash, path, written.size, written.digest)]
                             else s.files)
            && (if checksAgain then Spends(s.uploads, end.uploads, call.token, committedAt, answer) else end.uploads == s.uploads)
            && end.disk == (if stored || !removable then s.disk else s.disk - {path})
  {
    if written.Broken? {
      var failed := Apply(s, FailWrite(c));
      end := RemovingLeads(failed, c, path, Failed(WriteFailed), removable);
      StepLeads(s, FailWrite(c), c, end);
    } else {
      var file := File(s.calls[c].templateId, s.calls[c].hash, path, written.size, written.digest);
      var step := TemplateUploads.Write(c, written.size, written.digest);
      var full := Apply(s, step);
      end := WrittenLeads(full, c, file, written.archiveOk, committedAt, removable);
      StepLeads(s, step, c, end);
    }
  }

  lemma WrittenLeads(s: State, c: CallId, file: File, archiveOk: bool, committedAt: nat, removable: bool) returns (end: State)
    requires c in s.calls && s.calls[c].pc == TemplateUploads.Written(file) && s.now <= committedAt
    requires file.templateId == s.calls[c].templateId && file.hash == s.calls[c].hash
    ensures Leads(s, c, end) && c in end.calls && end.calls[c].pc.Done?
    ensures var call, answer := s.calls[c], end.calls[c].pc.answer;
            var second := Pending(s.uploads, call.token, call.templateId, call.hash, committedAt);
            var key := TrimSpace(call.templateId) + "/" + TrimSpace(call.hash);
            var checksAgain := HashAccepts(call.hash, file.digest) && archiveOk;
            var stored := answer.Accepted? && key !in s.files;
            && answer == AnswerTo(true, second, Complete(file.size, file.digest, archiveOk), call.hash, s.files, key)
            && end.files == (if stored then s.files[key := file] else s.files)
            && (if checksAgain then Spends(s.uploads, end.uploads, call.token, committedAt, answer) else end.uploads == s.uploads)
            && end.disk == (if stored || !removable then s.disk else s.disk - {file.path})
  {
    var next := Apply(s, Validate(c, archiveOk));
    if next.calls[c].pc.Removing? {
      end := RemovingLeads(next, c, file.path, next.calls[c].pc.answer, removable);
    } else {
      end := ValidLeads(next, c, file, committedAt, removable);
    }
    StepLeads(s, Validate(c, archiveOk), c, end);
  }

  lemma AdmittedLeads(s: State, c: CallId, path: Path, written: Written, committedAt: nat, removable: bool) returns (end: State)
    requires c in s.calls && s.calls[c].pc == Admitted && s.now <= committedAt && path !in s.disk
    requires written.Complete? ==> 0 < written.size <= MAX_UPLOAD_BYTES
    requires var call := s.calls[c]; Pending(s.uploads, call.token, call.templateId, call.hash, s.now)
    ensures Leads(s, c, end) && c in end.calls && end.calls[c].pc.Done?
    ensures Stores(s.uploads, s.files, s.disk, end.uploads, end.files, end.disk, s.calls[c].templateId, s.calls[c].hash,
                   s.calls[c].token, path, written, s.now, committedAt, removable, end.calls[c].pc.answer)
  {
    if written.NotCreated? {
      end := Apply(s, FailCreate(c));
      Arrived(end, c);
      StepLeads(s, FailCreate(c), c, end);
    } else {
      var open := Apply(s, CreateTemp(c, path));
      end := WritingLeads(open, c, path, written, committedAt, removable);
      StepLeads(s, CreateTemp(c, path), c, end);
      assert s.disk + {path} - {path} == s.disk;
    }
  }

  lemma StartLeads(s: State, c: CallId, path: Path, written: Written, committedAt: nat, removable: bool) returns (end: State)
    requires c in s.calls && s.calls[c].pc == Start && s.now <= committedAt && path !in s.disk
    requires written.Complete? ==> 0 < written.size <= MAX_UPLOAD_BYTES
    ensures Leads(s, c, end) && c in end.calls && end.calls[c].pc.Done?
    ensures Stores(s.uploads, s.files, s.disk, end.uploads, end.files, end.disk, s.calls[c].templateId, s.calls[c].hash,
                   s.calls[c].token, path, written, s.now, committedAt, removable, end.calls[c].pc.answer)
  {
    var next := Apply(s, Admit(c));
    if next.calls[c].pc.Done? {
      end := next;
      Arrived(end, c);
    } else {
      assert next.uploads == s.uploads;
      end := AdmittedLeads(next, c, path, written, committedAt, removable);
    }
    StepLeads(s, Admit(c), c, end);
  }

  /** In the protocol of TemplateUploads, a call that nothing interrupts does what StoreTemplateFileUploadReader promises, from
      any state and whatever fails. */
  lemma CallRuns(s: State, c: CallId, id: string, sum: string, secret: Token, path: Path, written: Written, checkedAt: nat,
      committedAt: nat, removable: bool) returns (end: State)
    requires c !in s.calls && s.now <= checkedAt <= committedAt && path !in s.disk
    requires written.Complete? ==> 0 < written.size <= MAX_UPLOAD_BYTES
    ensures Leads(s, c, end) && c in end.calls && end.calls[c].pc.Done?
    ensures Stores(s.uploads, s.files, s.disk, end.uploads, end.files, end.disk, TrimSpace(id), TrimSpace(sum),
                   TrimSpace(secret), path, written, checkedAt, committedAt, removable, end.calls[c].pc.answer)
  {
    var begun := Apply(s, Begin(c, secret, id, sum));
    var checked := Apply(begun, Tick(checkedAt));
    end := StartLeads(checked, c, path, written, committedAt, removable);
    StepLeads(begun, Tick(checkedAt), c, end);
    StepLeads(s, Begin(c, secret, id, sum), c, end);
  }
}

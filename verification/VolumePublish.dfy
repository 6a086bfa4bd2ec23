/** Publishing a file of a Docker volume: any number of writers in one directory, each filling a temporary file and then
    renaming it over its target or linking the target to it (internal/backends/docker/volumes.go). */
module VolumePublish {

  type Inode = nat
  type WriterId = nat
  type Content = seq<bv8>

  /** A temporary name carries a random UUID; the type keeps it apart from the names that clients choose. */
  datatype Name = Plain(name: string) | Temporary(uuid: nat)

  datatype Node = Directory | Symlink | File(content: Content)

  datatype Outcome = Published | PathIsDirectory | PathIsSymlink | AlreadyExists | IoError

  datatype WriterPc =
    | Start
    | Checked
    | Open(tmp: Name, inode: Inode, copied: nat)
    | Ready(tmp: Name, inode: Inode)
    | Removing(tmp: Name, outcome: Outcome)
    | Done(outcome: Outcome)

  datatype Writer = Writer(target: Name, force: bool, body: Content, pc: WriterPc)

  /** Where an inode that has had a client's name comes from. */
  datatype Origin = Initial(node: Node) | WrittenBy(w: WriterId)

  /** The last five fields record history: the directory at the start, the temporary names drawn so far, the inodes
      that have had a client's name, how often a client's name was removed, and the temporary names whose removal
      failed, an error that the code ignores. */
  datatype State = State(
    names: map<Name, Inode>,
    nodes: map<Inode, Node>,
    writers: map<WriterId, Writer>,
    initial: map<Name, Inode>,
    drawn: set<Name>,
    origins: map<Inode, Origin>,
    removed: multiset<Name>,
    leftover: set<Name>)

  datatype Step =
    | Begin(w: WriterId, target: Name, force: bool, body: Content)
    | Check(w: WriterId)
    | CreateTemp(w: WriterId, tmp: Name, inode: Inode)
    | GiveUp(w: WriterId)
    | Copy(w: WriterId, count: nat)
    | FailWrite(w: WriterId)
    | Close(w: WriterId)
    | Publish(w: WriterId, ok: bool)
    | RemoveTemp(w: WriterId, ok: bool)
    | RemoveTarget(name: Name)

  predicate Enabled(s: State, step: Step) {
    match step
    case Begin(w, target, _, _) => w !in s.writers && target.Plain?
    case Check(w) => w in s.writers && s.writers[w].pc.Start?
    case CreateTemp(w, tmp, inode) =>
      w in s.writers && s.writers[w].pc.Checked? && tmp.Temporary? && tmp !in s.drawn && inode !in s.nodes
    case GiveUp(w) => w in s.writers && s.writers[w].pc.Checked?
    case Copy(w, count) =>
      && w in s.writers && s.writers[w].pc.Open? && s.writers[w].pc.inode in s.nodes
      && s.writers[w].pc.copied + count <= |s.writers[w].body|
    case FailWrite(w) => w in s.writers && s.writers[w].pc.Open?
    case Close(w) => w in s.writers && s.writers[w].pc.Open? && s.writers[w].pc.copied == |s.writers[w].body|
    case Publish(w, _) => w in s.writers && s.writers[w].pc.Ready?
    case RemoveTemp(w, _) => w in s.writers && s.writers[w].pc.Removing?
    case RemoveTarget(name) => name.Plain? && name in s.names
  }

  function NodeAt(s: State, name: Name): (node: Node)
    requires name in s.names && s.names[name] in s.nodes
  {
    s.nodes[s.names[name]]
  }

  /** The check before anything is written. */
  function Precheck(s: State, writer: Writer): WriterPc {
    if writer.target !in s.names || s.names[writer.target] !in s.nodes then Checked
    else if NodeAt(s, writer.target).Directory? then Done(PathIsDirectory)
    else if NodeAt(s, writer.target).Symlink? then Done(PathIsSymlink)
    else if !writer.force then Done(AlreadyExists)
    else Checked
  }

  /** Whether the file system can do the rename or the link. A rename takes over whatever is not a directory, unless the
      temporary name is gone; a link takes over nothing. */
  predicate CanPublish(s: State, writer: Writer)
    requires writer.pc.Ready?
  {
    && writer.pc.tmp in s.names
    && if writer.force then writer.target in s.names && s.names[writer.target] in s.nodes ==> !NodeAt(s, writer.target).Directory?
       else writer.target !in s.names
  }

  predicate Publishes(s: State, step: Step) {
    step.Publish? && Enabled(s, step) && step.ok && CanPublish(s, s.writers[step.w])
  }

  function NextPc(s: State, w: WriterId, step: Step): WriterPc
    requires w in s.writers
  {
    var writer := s.writers[w];
    match step
    case Check(_) => Precheck(s, writer)
    case CreateTemp(_, tmp, inode) => Open(tmp, inode, 0)
    case GiveUp(_) => Done(IoError)
    case Copy(_, count) => if writer.pc.Open? then writer.pc.(copied := writer.pc.copied + count) else writer.pc
    case FailWrite(_) => if writer.pc.Open? then Removing(writer.pc.tmp, IoError) else writer.pc
    case Close(_) => if writer.pc.Open? then Ready(writer.pc.tmp, writer.pc.inode) else writer.pc
    case Publish(_, _) =>
      if !writer.pc.Ready? then writer.pc
      else if Publishes(s, step) then Removing(writer.pc.tmp, Published)
      else Removing(writer.pc.tmp, if !writer.force && writer.target in s.names then AlreadyExists else IoError)
    case RemoveTemp(_, _) => if writer.pc.Removing? then Done(writer.pc.outcome) else writer.pc
    case _ => writer.pc
  }

  function NextWriters(s: State, step: Step): map<WriterId, Writer>
    requires Enabled(s, step)
  {
    match step
    case Begin(w, target, force, body) => s.writers[w := Writer(target, force, body, Start)]
    case RemoveTarget(_) => s.writers
    case _ => s.writers[step.w := s.writers[step.w].(pc := NextPc(s, step.w, step))]
  }

  /** A rename removes the temporary name, and a link does not. */
  function NextNames(s: State, step: Step): map<Name, Inode>
    requires Enabled(s, step)
  {
    match step
    case CreateTemp(_, tmp, inode) => s.names[tmp := inode]
    case Publish(w, _) =>
      var writer := s.writers[w];
      if !Publishes(s, step) then s.names
      else if writer.force then s.names[writer.target := s.names[writer.pc.tmp]] - {writer.pc.tmp}
      else s.names[writer.target := s.names[writer.pc.tmp]]
    case RemoveTemp(w, ok) => if ok then s.names - {s.writers[w].pc.tmp} else s.names
    case RemoveTarget(name) => s.names - {name}
    case _ => s.names
  }

  function Appended(node: Node, chunk: Content): Node {
    if node.File? then File(node.content + chunk) else node
  }

  function NextNodes(s: State, step: Step): map<Inode, Node>
    requires Enabled(s, step)
  {
    match step
    case CreateTemp(_, _, inode) => s.nodes[inode := File([])]
    case Copy(w, count) =>
      var pc := s.writers[w].pc;
      s.nodes[pc.inode := Appended(s.nodes[pc.inode], s.writers[w].body[pc.copied..pc.copied + count])]
    case _ => s.nodes
  }

  function Apply(s: State, step: Step): State
    requires Enabled(s, step)
  {
    var publishes := Publishes(s, step);
    State(NextNames(s, step), NextNodes(s, step), NextWriters(s, step), s.initial,
          if step.CreateTemp? then s.drawn + {step.tmp} else s.drawn,
          if publishes then s.origins[s.names[s.writers[step.w].pc.tmp] := WrittenBy(step.w)] else s.origins,
          if step.RemoveTarget? then s.removed + multiset{step.name} else s.removed,
          if step.RemoveTemp? && !step.ok then s.leftover + {s.writers[step.w].pc.tmp} else s.leftover)
  }

  ghost predicate Init(s: State) {
    && s.writers == map[] && s.initial == s.names && s.removed == multiset{} && s.drawn == {} && s.leftover == {}
    && (forall n :: n in s.names ==> n.Plain? && s.names[n] in s.origins)
    && (forall i :: i in s.origins ==> i in s.nodes && s.origins[i] == Initial(s.nodes[i]))
  }

  ghost predicate Run(s: State, steps: seq<Step>, end: State)
    decreases |steps|
  {
    if steps == [] then end == s else Enabled(s, steps[0]) && Run(Apply(s, steps[0]), steps[1..], end)
  }

  // ---------------------------------------------------------------- what every step keeps

  predicate HasTemp(pc: WriterPc) {
    pc.Open? || pc.Ready? || pc.Removing?
  }

  predicate Filling(pc: WriterPc) {
    pc.Open? || pc.Ready?
  }

  predicate HasPublished(pc: WriterPc) {
    (pc.Removing? || pc.Done?) && pc.outcome.Published?
  }

  /** A file being filled holds what has been copied, under the temporary name alone, and no client has seen it. */
  ghost predicate WriterFits(s: State, writer: Writer) {
    && writer.target.Plain?
    && (HasTemp(writer.pc) ==> writer.pc.tmp.Temporary? && writer.pc.tmp in s.drawn)
    && (Filling(writer.pc) ==>
          && writer.pc.tmp in s.names && s.names[writer.pc.tmp] == writer.pc.inode
          && writer.pc.inode in s.nodes && writer.pc.inode !in s.origins)
    && (writer.pc.Open? ==>
          writer.pc.copied <= |writer.body| && s.nodes[writer.pc.inode] == File(writer.body[..writer.pc.copied]))
    && (writer.pc.Ready? ==> s.nodes[writer.pc.inode] == File(writer.body))
  }

  ghost predicate WritersInv(s: State) {
    && (forall w :: w in s.writers ==> WriterFits(s, s.writers[w]))
    && (forall v, w ::
          (v in s.writers && w in s.writers && HasTemp(s.writers[v].pc) && HasTemp(s.writers[w].pc)
           && s.writers[v].pc.tmp == s.writers[w].pc.tmp) ==> v == w)
    && (forall v, w ::
          (v in s.writers && w in s.writers && Filling(s.writers[v].pc) && Filling(s.writers[w].pc)
           && s.writers[v].pc.inode == s.writers[w].pc.inode) ==> v == w)
  }

  /** An inode that has had a client's name holds what it held then. */
  ghost predicate OriginFits(s: State, i: Inode) {
    && i in s.origins && i in s.nodes
    && match s.origins[i]
       case Initial(node) => s.nodes[i] == node
       case WrittenBy(w) =>
         w in s.writers && HasPublished(s.writers[w].pc) && s.nodes[i] == File(s.writers[w].body)
  }

  ghost predicate NameFits(s: State, n: Name) {
    && n in s.names
    && match n
       case Temporary(_) =>
         n in s.leftover || exists w :: w in s.writers && HasTemp(s.writers[w].pc) && s.writers[w].pc.tmp == n
       case Plain(_) =>
         && s.names[n] in s.origins
         && match s.origins[s.names[n]]
            case Initial(_) => n in s.initial && s.initial[n] == s.names[n]
            case WrittenBy(w) => w in s.writers && s.writers[w].target == n
  }

  ghost predicate NamesInv(s: State) {
    && (forall i :: i in s.origins ==> OriginFits(s, i))
    && (forall n :: n in s.names ==> NameFits(s, n))
  }

  function Present(names: map<Name, Inode>, n: Name): nat {
    if n in names then 1 else 0
  }

  /** The writers that have created `n`, as force would let them replace it. */
  ghost function Creators(s: State, n: Name): set<WriterId> {
    set w | w in s.writers && s.writers[w].target == n && !s.writers[w].force && HasPublished(s.writers[w].pc)
  }

  /** Only an absent name can be created. */
  ghost predicate LinksInv(s: State) {
    forall n: Name :: n.Plain? ==> |Creators(s, n)| + Present(s.initial, n) <= s.removed[n] + Present(s.names, n)
  }

  ghost predicate Inv(s: State) {
    WritersInv(s) && NamesInv(s) && LinksInv(s)
  }

  // ---------------------------------------------------------------- proofs, one step

  predicate Subject(step: Step, w: WriterId) {
    !step.RemoveTarget? && step.w == w
  }

  lemma WriterMoves(s: State, step: Step, w: WriterId)
    requires Enabled(s, step) && w in Apply(s, step).writers
    ensures w !in s.writers ==> step.Begin? && Apply(s, step).writers[w].pc == Start && step.target == Apply(s, step).writers[w].target
    ensures w in s.writers && Subject(step, w) ==> Apply(s, step).writers[w] == s.writers[w].(pc := NextPc(s, w, step))
    ensures w in s.writers && !Subject(step, w) ==> Apply(s, step).writers[w] == s.writers[w]
  {
  }

  lemma WritersStay(s: State, step: Step, w: WriterId)
    requires Enabled(s, step) && w in s.writers
    ensures w in Apply(s, step).writers
    ensures Apply(s, step).writers[w].target == s.writers[w].target && Apply(s, step).writers[w].body == s.writers[w].body
    ensures HasPublished(s.writers[w].pc) ==> HasPublished(Apply(s, step).writers[w].pc)
  {
  }

  lemma OwnStepFits(s: State, step: Step, w: WriterId)
    requires Enabled(s, step) && w in s.writers && Subject(step, w) && WriterFits(s, s.writers[w])
    requires step.CreateTemp? ==> step.inode !in s.origins
    ensures WriterFits(Apply(s, step), s.writers[w].(pc := NextPc(s, w, step)))
  {
    if step.Copy? {
      var pc := s.writers[w].pc;
      assert s.writers[w].body[..pc.copied] + s.writers[w].body[pc.copied..pc.copied + step.count]
             == s.writers[w].body[..pc.copied + step.count];
    }
    if step.Close? {
      assert s.writers[w].body[..|s.writers[w].body|] == s.writers[w].body;
    }
  }

  /** Two writers share neither temporary name nor inode. */
  ghost predicate Apart(v: Writer, w: Writer) {
    && (HasTemp(v.pc) && HasTemp(w.pc) ==> v.pc.tmp != w.pc.tmp)
    && (Filling(v.pc) && Filling(w.pc) ==> v.pc.inode != w.pc.inode)
  }

  lemma OtherStepFits(s: State, step: Step, w: WriterId)
    requires Enabled(s, step) && w in s.writers && !Subject(step, w) && WriterFits(s, s.writers[w])
    requires !step.RemoveTarget? && step.w in s.writers ==>
               WriterFits(s, s.writers[step.w]) && Apart(s.writers[step.w], s.writers[w])
    ensures WriterFits(Apply(s, step), s.writers[w])
  {
  }

  lemma TempsStayApart(s: State, step: Step, v: WriterId, w: WriterId)
    requires WritersInv(s) && Enabled(s, step) && v in Apply(s, step).writers && w in Apply(s, step).writers
    ensures var s' := Apply(s, step);
            HasTemp(s'.writers[v].pc) && HasTemp(s'.writers[w].pc) && s'.writers[v].pc.tmp == s'.writers[w].pc.tmp
            ==> v == w
    ensures var s' := Apply(s, step);
            Filling(s'.writers[v].pc) && Filling(s'.writers[w].pc) && s'.writers[v].pc.inode == s'.writers[w].pc.inode
            ==> v == w
  {
    WriterMoves(s, step, v);
    WriterMoves(s, step, w);
    assert v in s.writers ==> WriterFits(s, s.writers[v]);
    assert w in s.writers ==> WriterFits(s, s.writers[w]);
  }

  lemma WritersStep(s: State, step: Step)
    requires WritersInv(s) && NamesInv(s) && Enabled(s, step)
    ensures WritersInv(Apply(s, step))
  {
    var s' := Apply(s, step);
    forall w | w in s'.writers ensures WriterFits(s', s'.writers[w]) {
      WriterMoves(s, step, w);
      assert step.CreateTemp? && step.inode in s.origins ==> OriginFits(s, step.inode);
      if w in s.writers {
        if Subject(step, w) {
          OwnStepFits(s, step, w);
        } else {
          assert WriterFits(s, s.writers[w]);
          assert !step.RemoveTarget? && step.w in s.writers ==>
              WriterFits(s, s.writers[step.w]) && Apart(s.writers[step.w], s.writers[w]);
          OtherStepFits(s, step, w);
        }
      }
    }
    forall v, w | v in s'.writers && w in s'.writers
      ensures HasTemp(s'.writers[v].pc) && HasTemp(s'.writers[w].pc) && s'.writers[v].pc.tmp == s'.writers[w].pc.tmp ==> v == w
      ensures Filling(s'.writers[v].pc) && Filling(s'.writers[w].pc) && s'.writers[v].pc.inode == s'.writers[w].pc.inode ==> v == w
    {
      TempsStayApart(s, step, v, w);
    }
  }

  /** An inode that has had a client's name is never written again. */
  lemma SeenInodesAreFrozen(s: State, step: Step, i: Inode)
    requires WritersInv(s) && Enabled(s, step) && i in s.origins && i in s.nodes
    ensures i in Apply(s, step).origins && Apply(s, step).origins[i] == s.origins[i]
    ensures i in Apply(s, step).nodes && Apply(s, step).nodes[i] == s.nodes[i]
  {
    assert !step.RemoveTarget? && step.w in s.writers ==> WriterFits(s, s.writers[step.w]);
  }

  lemma OriginsStep(s: State, step: Step, i: Inode)
    requires WritersInv(s) && Enabled(s, step) && i in Apply(s, step).origins && (i in s.origins ==> OriginFits(s, i))
    ensures OriginFits(Apply(s, step), i)
  {
    if i in s.origins {
      SeenInodesAreFrozen(s, step, i);
      if s.origins[i].WrittenBy? {
        WritersStay(s, step, s.origins[i].w);
      }
    } else {
      assert WriterFits(s, s.writers[step.w]);
    }
  }

  lemma PlainNameStep(s: State, step: Step, n: Name)
    requires WritersInv(s) && NamesInv(s) && Enabled(s, step) && n in Apply(s, step).names && n.Plain?
    ensures NameFits(Apply(s, step), n)
  {
    assert !step.RemoveTarget? && step.w in s.writers ==> WriterFits(s, s.writers[step.w]);
    if Publishes(s, step) && s.writers[step.w].target == n {
      WritersStay(s, step, step.w);
    } else {
      assert NameFits(s, n);
      assert OriginFits(s, s.names[n]);
      SeenInodesAreFrozen(s, step, s.names[n]);
      if s.origins[s.names[n]].WrittenBy? {
        WritersStay(s, step, s.origins[s.names[n]].w);
      }
    }
  }

  lemma TemporaryNameStep(s: State, step: Step, n: Name)
    requires WritersInv(s) && NamesInv(s) && Enabled(s, step) && n in Apply(s, step).names && n.Temporary?
    ensures NameFits(Apply(s, step), n)
  {
    var s' := Apply(s, step);
    assert !step.RemoveTarget? && step.w in s.writers ==> WriterFits(s, s.writers[step.w]);
    if step.CreateTemp? && step.tmp == n {
      assert s'.writers[step.w].pc.tmp == n;
    } else if n !in s'.leftover {
      assert NameFits(s, n);
      var w :| w in s.writers && HasTemp(s.writers[w].pc) && s.writers[w].pc.tmp == n;
      WritersStay(s, step, w);
      WriterMoves(s, step, w);
      assert HasTemp(s'.writers[w].pc) && s'.writers[w].pc.tmp == n;
    }
  }

  lemma NamesStep(s: State, step: Step)
    requires WritersInv(s) && NamesInv(s) && Enabled(s, step)
    ensures NamesInv(Apply(s, step))
  {
    forall i | i in Apply(s, step).origins ensures OriginFits(Apply(s, step), i) {
      OriginsStep(s, step, i);
    }
    forall n | n in Apply(s, step).names ensures NameFits(Apply(s, step), n) {
      if n.Plain? {
        PlainNameStep(s, step, n);
      } else {
        TemporaryNameStep(s, step, n);
      }
    }
  }

  lemma CreatorsStep(s: State, step: Step, n: Name)
    requires Enabled(s, step)
    ensures Creators(Apply(s, step), n) ==
              if Publishes(s, step) && !s.writers[step.w].force && s.writers[step.w].target == n
              then Creators(s, n) + {step.w}
              else Creators(s, n)
  {
    forall w | w in Apply(s, step).writers
      ensures w in Creators(Apply(s, step), n) <==>
                w in Creators(s, n)
                || (Publishes(s, step) && step.w == w && !s.writers[w].force && s.writers[w].target == n)
    {
      WriterMoves(s, step, w);
    }
    forall w | w in Creators(s, n) ensures w in Apply(s, step).writers {
      WritersStay(s, step, w);
    }
  }

  lemma LinksStep(s: State, step: Step, n: Name)
    requires Enabled(s, step) && n.Plain?
    requires !step.RemoveTarget? && step.w in s.writers ==> WriterFits(s, s.writers[step.w])
    requires |Creators(s, n)| + Present(s.initial, n) <= s.removed[n] + Present(s.names, n)
    ensures var s' := Apply(s, step);
            |Creators(s', n)| + Present(s'.initial, n) <= s'.removed[n] + Present(s'.names, n)
  {
    CreatorsStep(s, step, n);
  }

  lemma InvStep(s: State, step: Step)
    requires Inv(s) && Enabled(s, step)
    ensures Inv(Apply(s, step))
  {
    WritersStep(s, step);
    NamesStep(s, step);
    forall n: Name | n.Plain?
      ensures var s' := Apply(s, step);
              |Creators(s', n)| + Present(s'.initial, n) <= s'.removed[n] + Present(s'.names, n)
    {
      LinksStep(s, step, n);
    }
  }

  // ---------------------------------------------------------------- over whole runs

  lemma {:induction false} InvOnRuns(s: State, steps: seq<Step>, end: State)
    requires Inv(s) && Run(s, steps, end)
    ensures Inv(end) && end.initial == s.initial
    decreases |steps|
  {
    if steps != [] {
      InvStep(s, steps[0]);
      InvOnRuns(Apply(s, steps[0]), steps[1..], end);
    }
  }

  lemma {:induction false} FrozenOnRuns(s: State, steps: seq<Step>, end: State, i: Inode)
    requires Inv(s) && Run(s, steps, end) && i in s.origins && i in s.nodes
    ensures i in end.origins && end.origins[i] == s.origins[i]
    ensures i in end.nodes && end.nodes[i] == s.nodes[i]
    decreases |steps|
  {
    if steps != [] {
      SeenInodesAreFrozen(s, steps[0], i);
      InvStep(s, steps[0]);
      FrozenOnRuns(Apply(s, steps[0]), steps[1..], end, i);
    }
  }

  lemma InitInv(s: State)
    requires Init(s)
    ensures Inv(s)
  {
    forall n: Name | n.Plain? ensures |Creators(s, n)| == 0 {
      assert Creators(s, n) == {};
    }
  }

  /** What a client's name denotes, at any moment of any run: the file it denoted at the start, unchanged, or the whole
      body of one writer that aimed at it. */
  lemma TargetsAreWhole(start: State, steps: seq<Step>, s: State, n: Name)
    requires Init(start) && Run(start, steps, s) && n.Plain? && n in s.names
    ensures s.names[n] in s.nodes
    ensures || (n in start.names && s.names[n] == start.names[n] && s.nodes[s.names[n]] == start.nodes[s.names[n]])
            || (exists w :: w in s.writers && s.writers[w].target == n && HasPublished(s.writers[w].pc)
                            && s.nodes[s.names[n]] == File(s.writers[w].body))
  {
    InitInv(start);
    InvOnRuns(start, steps, s);
    assert NameFits(s, n);
    assert OriginFits(s, s.names[n]);
    if s.origins[s.names[n]].Initial? {
      FrozenOnRuns(start, steps, s, s.names[n]);
    }
  }

  /** Whoever has opened the file behind a client's name keeps reading the same bytes, whatever happens to the name. */
  lemma OpenFilesNeverChange(start: State, before: seq<Step>, s: State, n: Name, after: seq<Step>, end: State)
    requires Init(start) && Run(start, before, s) && n.Plain? && n in s.names && Run(s, after, end)
    ensures s.names[n] in s.nodes && s.names[n] in end.nodes && end.nodes[s.names[n]] == s.nodes[s.names[n]]
  {
    InitInv(start);
    InvOnRuns(start, before, s);
    assert NameFits(s, n);
    assert OriginFits(s, s.names[n]);
    FrozenOnRuns(s, after, end, s.names[n]);
  }

  /** Without removals, at most one writer without force succeeds on a name, and none if the name was taken; each removal
      lets in one more. */
  lemma CreateOnlyOnce(start: State, steps: seq<Step>, s: State, n: Name)
    requires Init(start) && Run(start, steps, s) && n.Plain?
    ensures |Creators(s, n)| <= s.removed[n] + 1
    ensures n in start.names ==> |Creators(s, n)| <= s.removed[n]
  {
    InitInv(start);
    InvOnRuns(start, steps, s);
  }

  /** Every temporary name in the directory is that of exactly one writer still at work, or its removal failed; when all
      are done, none is left but these. */
  lemma NoTemporaryIsLeft(start: State, steps: seq<Step>, s: State)
    requires Init(start) && Run(start, steps, s)
    ensures forall n :: n in s.names && n.Temporary? && n !in s.leftover ==> exists w :: Works(s, w, n)
    ensures forall n, v, w :: Works(s, v, n) && Works(s, w, n) ==> v == w
    ensures (forall w :: w in s.writers ==> s.writers[w].pc.Done?) ==> forall n :: n in s.names ==> n.Plain? || n in s.leftover
  {
    InitInv(start);
    InvOnRuns(start, steps, s);
    forall n | n in s.names && n.Temporary? && n !in s.leftover ensures exists w :: Works(s, w, n) {
      TemporaryIsAtWork(s, n);
    }
  }

  /** The writer has not yet removed its temporary name `n`. */
  ghost predicate Works(s: State, w: WriterId, n: Name) {
    w in s.writers && HasTemp(s.writers[w].pc) && s.writers[w].pc.tmp == n
  }

  lemma TemporaryIsAtWork(s: State, n: Name)
    requires n.Temporary? && n !in s.leftover && NameFits(s, n)
    ensures exists w :: Works(s, w, n)
  {
    var w :| w in s.writers && HasTemp(s.writers[w].pc) && s.writers[w].pc.tmp == n;
    assert Works(s, w, n);
  }

  /** What a step does to a client's name: a publication under it, or its removal, and nothing else changes it; and these
      take effect. */
  lemma NamesChangeBy(start: State, steps: seq<Step>, s: State, step: Step, n: Name)
    requires Init(start) && Run(start, steps, s) && Enabled(s, step) && n.Plain?
    ensures var s' := Apply(s, step);
            && (step == RemoveTarget(n) ==> n !in s'.names)
            && (Publishes(s, step) && s.writers[step.w].target == n ==>
                  n in s'.names && s'.names[n] == s.writers[step.w].pc.inode)
            && (step != RemoveTarget(n) && !(Publishes(s, step) && s.writers[step.w].target == n) ==>
                  (n in s'.names <==> n in s.names) && (n in s.names ==> s'.names[n] == s.names[n]))
  {
    InitInv(start);
    InvOnRuns(start, steps, s);
    assert !step.RemoveTarget? && step.w in s.writers ==> WriterFits(s, s.writers[step.w]);
    NameChange(s, step, n);
  }

  lemma NameChange(s: State, step: Step, n: Name)
    requires Enabled(s, step) && n.Plain?
    requires !step.RemoveTarget? && step.w in s.writers ==> WriterFits(s, s.writers[step.w])
    ensures var s' := Apply(s, step);
            && (step == RemoveTarget(n) ==> n !in s'.names)
            && (Publishes(s, step) && s.writers[step.w].target == n ==>
                  n in s'.names && s'.names[n] == s.writers[step.w].pc.inode)
            && (step != RemoveTarget(n) && !(Publishes(s, step) && s.writers[step.w].target == n) ==>
                  (n in s'.names <==> n in s.names) && (n in s.names ==> s'.names[n] == s.names[n]))
  {
  }

  lemma PublishedIsWhole(s: State, w: WriterId)
    requires Publishes(s, Publish(w, true)) && WriterFits(s, s.writers[w])
    ensures var s' := Apply(s, Publish(w, true));
            && s.writers[w].target in s'.names && s'.names[s.writers[w].target] in s'.nodes
            && NodeAt(s', s.writers[w].target) == File(s.writers[w].body)
  {
    var s' := Apply(s, Publish(w, true));
    assert s'.names[s.writers[w].target] == s.writers[w].pc.inode;
  }

  /** A published file shows up at once and whole under its name. */
  lemma PublicationTakesEffect(start: State, steps: seq<Step>, s: State, w: WriterId)
    requires Init(start) && Run(start, steps, s) && Publishes(s, Publish(w, true))
    ensures var s' := Apply(s, Publish(w, true));
            && s.writers[w].target in s'.names && s'.names[s.writers[w].target] in s'.nodes
            && NodeAt(s', s.writers[w].target) == File(s.writers[w].body)
            && (!s.writers[w].force ==> s.writers[w].target !in s.names)
  {
    InitInv(start);
    InvOnRuns(start, steps, s);
    PublishedIsWhole(s, w);
  }
}

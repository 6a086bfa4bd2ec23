/** Writing one file of a Docker volume from start to end (internal/backends/docker/volumes.go): the method, with the
    directory and the inodes it works on, that VolumePublish takes apart into steps. */
module VolumeDirectory {
  import opened VolumePublish

  function Concat(chunks: seq<Content>): Content {
    if chunks == [] then [] else Concat(chunks[..|chunks| - 1]) + chunks[|chunks| - 1]
  }

  /** Which of a writer's calls work, if nothing in the directory stands in their way: creating the temporary file; its mode,
      owner, sync and close; the rename or the link; removing the temporary name; reading the entry afterwards. */
  datatype Calls = Calls(creates: bool, settles: bool, publishes: bool, removes: bool, stats: bool)

  /** What a writer that nothing interrupts makes of the names and nodes of a directory, and its outcome. `content` has come in,
      which is the whole body or not. Its target gets a whole new file, or no client's name changes; a temporary name
      is left only if it cannot be removed, and none after a rename. */
  ghost predicate Writes(names: map<Name, Inode>, nodes: map<Inode, Node>, names': map<Name, Inode>, nodes': map<Inode, Node>,
      target: Name, force: bool, content: Content, whole: bool, tmp: Name, inode: Inode, calls: Calls, outcome: Outcome)
    requires target in names ==> names[target] in nodes
  {
    && (outcome == PathIsDirectory <==> target in names && nodes[names[target]].Directory?)
    && (outcome == PathIsSymlink <==> target in names && nodes[names[target]].Symlink?)
    && (outcome == AlreadyExists <==> target in names && nodes[names[target]].File? && !force)
    && (outcome == Published <==>
          && calls.creates && whole && calls.settles && calls.publishes
          && (target in names ==> force && nodes[names[target]].File?))
    && names' - {tmp} == (if outcome == Published then names[target := inode] else names)
    && (outcome == Published || tmp in names' ==> inode in nodes' && nodes'[inode] == File(content))
    && (tmp in names' <==>
          calls.creates && !calls.removes && (outcome == IoError || (outcome == Published && !force)))
    && (tmp in names' ==> names'[tmp] == inode)
    && (forall i :: i in nodes ==> i in nodes' && nodes'[i] == nodes[i])
  }

  class VolumeDirectory {
    var names: map<Name, Inode>
    var nodes: map<Inode, Node>

    ghost predicate Valid()
      reads this
    {
      forall n :: n in names ==> names[n] in nodes
    }

    constructor ()
      ensures Valid() && names == map[] && nodes == map[]
    {
      names, nodes := map[], map[];
    }

    /** Remove with its error ignored. */
    method RemoveTemp(tmp: Name, calls: Calls)
      modifies this`names
      ensures names == if calls.removes then old(names) - {tmp} else old(names)
    {
      if calls.removes {
        names := names - {tmp};
      }
    }

    /** The body comes in chunks; `arrived` of them, if the connection breaks before the end. The file is complete under the
        temporary name, or there is no such name, unless it cannot be removed: then it stays with what has arrived. */
    method WriteTempFile(chunks: seq<Content>, arrived: nat, tmp: Name, inode: Inode, calls: Calls) returns (ok: bool)
      requires Valid() && tmp !in names && inode !in nodes && arrived <= |chunks|
      modifies this
      ensures Valid() && (ok <==> calls.creates && arrived == |chunks| && calls.settles)
      ensures names == if ok || (calls.creates && !calls.removes) then old(names)[tmp := inode] else old(names)
      ensures nodes == if calls.creates then old(nodes)[inode := File(Concat(chunks[..arrived]))] else old(nodes)
    {
      if !calls.creates {
        return false;
      }
      names := names[tmp := inode];
      nodes := nodes[inode := File([])];
      var k := 0;
      while k < arrived
        invariant k <= arrived
        invariant names == old(names)[tmp := inode]
        invariant nodes == old(nodes)[inode := File(Concat(chunks[..k]))]
      {
        assert chunks[..k + 1][..k] == chunks[..k];
        nodes := nodes[inode := File(nodes[inode].content + chunks[k])];
        k := k + 1;
      }
      ok := arrived == |chunks| && calls.settles;
      if !ok {
        RemoveTemp(tmp, calls);
        assert old(names)[tmp := inode] - {tmp} == old(names);
      }
    }

    /** The rename or the link, and the removal that is deferred. */
    method Publish(target: Name, force: bool, tmp: Name, calls: Calls) returns (published: bool)
      requires tmp in names && tmp != target
      modifies this`names
      ensures published <==> calls.publishes
      ensures names - {tmp} == (if published then old(names)[target := old(names)[tmp]] else old(names)) - {tmp}
      ensures tmp in names <==> !calls.removes && !(published && force)
      ensures tmp in names ==> names[tmp] == old(names)[tmp]
    {
      published := calls.publishes;
      if published {
        names := names[target := names[tmp]];
        if force {
          names := names - {tmp};
        }
      }
      RemoveTemp(tmp, calls);
    }

    /** A client may be answered an error for a file that is there. */
    method WriteVolumeFile(target: Name, force: bool, chunks: seq<Content>, arrived: nat, tmp: Name, inode: Inode,
        calls: Calls) returns (outcome: Outcome, answered: bool)
      requires Valid() && target.Plain? && tmp.Temporary? && tmp !in names && inode !in nodes && arrived <= |chunks|
      modifies this
      ensures Valid()
      ensures Writes(old(names), old(nodes), names, nodes, target, force, Concat(chunks[..arrived]), arrived == |chunks|,
                     tmp, inode, calls, outcome)
      ensures answered <==> outcome == Published && calls.stats
    {
      if target in names {
        var node := nodes[names[target]];
        if node.Directory? {
          return PathIsDirectory, false;
        }
        if node.Symlink? {
          return PathIsSymlink, false;
        }
        if !force {
          return AlreadyExists, false;
        }
      }
      var ok := WriteTempFile(chunks, arrived, tmp, inode, calls);
      if !ok {
        return IoError, false;
      }
      var published := Publish(target, force, tmp, calls);
      assert old(names)[tmp := inode] - {tmp} == old(names);
      assert old(names)[tmp := inode][target := inode] - {tmp} == old(names)[target := inode];
      assert forall n :: n in names && n != tmp ==> n in names - {tmp} && (names - {tmp})[n] == names[n];
      return if published then Published else IoError, published && calls.stats;
    }
  }

  // ---------------------------------------------------------------- one writer in the protocol

  ghost predicate Alone(steps: seq<Step>, w: WriterId) {
    forall i :: 0 <= i < |steps| ==> Subject(steps[i], w)
  }

  /** `end` is reached by steps of writer `w` only. */
  ghost predicate Leads(s: State, w: WriterId, end: State) {
    exists steps :: Alone(steps, w) && Run(s, steps, end)
  }

  lemma Arrived(s: State, w: WriterId)
    ensures Leads(s, w, s)
  {
    assert Run(s, [], s) && Alone([], w);
  }

  lemma StepLeads(s: State, step: Step, w: WriterId, end: State)
    requires Enabled(s, step) && Subject(step, w) && Leads(Apply(s, step), w, end)
    ensures Leads(s, w, end)
  {
    var steps :| Alone(steps, w) && Run(Apply(s, step), steps, end);
    assert ([step] + steps)[1..] == steps;
    assert Alone([step] + steps, w) && Run(s, [step] + steps, end);
  }

  /** From the end of the writing: the temporary name is removed, or stays. */
  lemma RemovingLeads(s: State, w: WriterId, tmp: Name, outcome: Outcome, calls: Calls) returns (end: State)
    requires w in s.writers && s.writers[w].pc == Removing(tmp, outcome)
    ensures Leads(s, w, end) && w in end.writers && end.writers[w].pc == Done(outcome)
    ensures end.names == (if calls.removes then s.names - {tmp} else s.names) && end.nodes == s.nodes
  {
    end := Apply(s, RemoveTemp(w, calls.removes));
    Arrived(end, w);
    StepLeads(s, RemoveTemp(w, calls.removes), w, end);
  }

  lemma ReadyLeads(s: State, w: WriterId, tmp: Name, inode: Inode, calls: Calls) returns (end: State)
    requires w in s.writers && s.writers[w].pc == Ready(tmp, inode) && tmp in s.names && s.names[tmp] == inode
    requires var writer := s.writers[w];
             && tmp != writer.target
             && (writer.target in s.names ==>
                   writer.force && s.names[writer.target] in s.nodes && !NodeAt(s, writer.target).Directory?)
    ensures Leads(s, w, end) && w in end.writers
    ensures end.writers[w].pc == Done(if calls.publishes then Published else IoError)
    ensures end.names - {tmp} == (if calls.publishes then s.names[s.writers[w].target := inode] else s.names) - {tmp}
    ensures tmp in end.names <==> !calls.removes && !(calls.publishes && s.writers[w].force)
    ensures (tmp in end.names ==> end.names[tmp] == inode) && end.nodes == s.nodes
  {
    var next := Apply(s, VolumePublish.Publish(w, calls.publishes));
    end := RemovingLeads(next, w, tmp, if calls.publishes then Published else IoError, calls);
    StepLeads(s, VolumePublish.Publish(w, calls.publishes), w, end);
  }

  /** From a file that content has come into: it is published or not. */
  lemma FilledLeads(s: State, w: WriterId, tmp: Name, inode: Inode, whole: bool, calls: Calls) returns (end: State)
    requires w in s.writers && s.writers[w].pc.Open? && s.writers[w].pc.tmp == tmp && s.writers[w].pc.inode == inode
    requires tmp in s.names && s.names[tmp] == inode && (whole ==> s.writers[w].pc.copied == |s.writers[w].body|)
    requires var writer := s.writers[w];
             && tmp != writer.target
             && (writer.target in s.names ==>
                   writer.force && s.names[writer.target] in s.nodes && !NodeAt(s, writer.target).Directory?)
    ensures Leads(s, w, end) && w in end.writers
    ensures var published := whole && calls.settles && calls.publishes;
            && end.writers[w].pc == Done(if published then Published else IoError)
            && end.names - {tmp} == (if published then s.names[s.writers[w].target := inode] else s.names) - {tmp}
            && (tmp in end.names <==> !calls.removes && !(published && s.writers[w].force))
    ensures (tmp in end.names ==> end.names[tmp] == inode) && end.nodes == s.nodes
  {
    if whole && calls.settles {
      var ready := Apply(s, Close(w));
      ClosingIs(s, w, Close(w));
      end := ReadyLeads(ready, w, tmp, inode, calls);
      StepLeads(s, Close(w), w, end);
    } else {
      var failed := Apply(s, FailWrite(w));
      ClosingIs(s, w, FailWrite(w));
      end := RemovingLeads(failed, w, tmp, IoError, calls);
      StepLeads(s, FailWrite(w), w, end);
    }
  }

  lemma OpenLeads(s: State, w: WriterId, tmp: Name, inode: Inode, arrived: nat, whole: bool, calls: Calls) returns (end: State)
    requires w in s.writers && s.writers[w].pc == Open(tmp, inode, 0) && tmp in s.names && s.names[tmp] == inode
    requires inode in s.nodes && s.nodes[inode] == File([])
    requires arrived <= |s.writers[w].body| && (whole ==> arrived == |s.writers[w].body|)
    requires var writer := s.writers[w];
             && tmp != writer.target
             && (writer.target in s.names ==>
                   && writer.force && s.names[writer.target] in s.nodes && s.names[writer.target] != inode
                   && !NodeAt(s, writer.target).Directory?)
    ensures Leads(s, w, end) && w in end.writers
    ensures var published := whole && calls.settles && calls.publishes;
            && end.writers[w].pc == Done(if published then Published else IoError)
            && end.names - {tmp} == (if published then s.names[s.writers[w].target := inode] else s.names) - {tmp}
            && (tmp in end.names <==> !calls.removes && !(published && s.writers[w].force))
    ensures tmp in end.names ==> end.names[tmp] == inode
    ensures end.nodes == s.nodes[inode := File(s.writers[w].body[..arrived])]
  {
    CopyIs(s, w, arrived);
    end := FilledLeads(Apply(s, Copy(w, arrived)), w, tmp, inode, whole, calls);
    StepLeads(s, Copy(w, arrived), w, end);
  }

  lemma CreationIs(s: State, w: WriterId, tmp: Name, inode: Inode)
    requires Enabled(s, CreateTemp(w, tmp, inode))
    ensures var s' := Apply(s, CreateTemp(w, tmp, inode));
            && w in s'.writers && s'.writers[w] == s.writers[w].(pc := Open(tmp, inode, 0))
            && s'.names == s.names[tmp := inode] && s'.nodes == s.nodes[inode := File([])]
  {
  }

  lemma CopyIs(s: State, w: WriterId, arrived: nat)
    requires Enabled(s, Copy(w, arrived)) && s.writers[w].pc.copied == 0 && s.nodes[s.writers[w].pc.inode] == File([])
    ensures var s', writer := Apply(s, Copy(w, arrived)), s.writers[w];
            && w in s'.writers && s'.writers[w] == writer.(pc := writer.pc.(copied := arrived))
            && s'.names == s.names && s'.nodes == s.nodes[writer.pc.inode := File(writer.body[..arrived])]
  {
    assert [] + s.writers[w].body[0..arrived] == s.writers[w].body[..arrived];
  }

  lemma ClosingIs(s: State, w: WriterId, step: Step)
    requires Enabled(s, step) && (step == Close(w) || step == FailWrite(w))
    ensures var s', writer := Apply(s, step), s.writers[w];
            && w in s'.writers && s'.names == s.names && s'.nodes == s.nodes
            && s'.writers[w] == writer.(pc := if step.Close? then Ready(writer.pc.tmp, writer.pc.inode)
                                              else Removing(writer.pc.tmp, IoError))
  {
  }

  lemma CheckedLeads(s: State, w: WriterId, arrived: nat, whole: bool, tmp: Name, inode: Inode, calls: Calls)
    returns (end: State)
    requires w in s.writers && s.writers[w].pc == Checked && s.writers[w].target.Plain?
    requires tmp.Temporary? && tmp !in s.drawn && tmp !in s.names && inode !in s.nodes
    requires var writer := s.writers[w];
             && arrived <= |writer.body| && (whole ==> arrived == |writer.body|)
             && (writer.target in s.names ==>
                   writer.force && s.names[writer.target] in s.nodes && NodeAt(s, writer.target).File?)
    ensures Leads(s, w, end) && w in end.writers && end.writers[w].pc.Done?
    ensures Writes(s.names, s.nodes, end.names, end.nodes, s.writers[w].target, s.writers[w].force,
                   s.writers[w].body[..arrived], whole, tmp, inode, calls, end.writers[w].pc.outcome)
  {
    if !calls.creates {
      end := Apply(s, GiveUp(w));
      Arrived(end, w);
      StepLeads(s, GiveUp(w), w, end);
      assert s.names - {tmp} == s.names;
    } else {
      var open := Apply(s, CreateTemp(w, tmp, inode));
      CreationIs(s, w, tmp, inode);
      end := OpenLeads(open, w, tmp, inode, arrived, whole, calls);
      StepLeads(s, CreateTemp(w, tmp, inode), w, end);
      NamesAre(s.names, s.writers[w].target, tmp, inode);
    }
  }

  lemma NamesAre(names: map<Name, Inode>, target: Name, tmp: Name, inode: Inode)
    requires tmp !in names && target != tmp
    ensures names[tmp := inode] - {tmp} == names
    ensures names[tmp := inode][target := inode] - {tmp} == names[target := inode]
  {
  }

  lemma StartLeads(s: State, w: WriterId, arrived: nat, whole: bool, tmp: Name, inode: Inode, calls: Calls)
    returns (end: State)
    requires w in s.writers && s.writers[w].pc == Start && s.writers[w].target.Plain?
    requires tmp.Temporary? && tmp !in s.drawn && tmp !in s.names && inode !in s.nodes
    requires var writer := s.writers[w];
             && arrived <= |writer.body| && (whole ==> arrived == |writer.body|)
             && (writer.target in s.names ==> s.names[writer.target] in s.nodes)
    ensures Leads(s, w, end) && w in end.writers && end.writers[w].pc.Done?
    ensures Writes(s.names, s.nodes, end.names, end.nodes, s.writers[w].target, s.writers[w].force,
                   s.writers[w].body[..arrived], whole, tmp, inode, calls, end.writers[w].pc.outcome)
  {
    var checked := Apply(s, Check(w));
    if checked.writers[w].pc.Done? {
      end := checked;
      Arrived(end, w);
      assert s.names - {tmp} == s.names;
    } else {
      end := CheckedLeads(checked, w, arrived, whole, tmp, inode, calls);
    }
    StepLeads(s, Check(w), w, end);
  }

  /** In the protocol of VolumePublish, a writer that nothing interrupts does what WriteVolumeFile promises, in any directory
      and whichever of its calls fail. */
  lemma WriterRuns(s: State, w: WriterId, target: Name, force: bool, body: Content, arrived: nat, whole: bool, tmp: Name,
      inode: Inode, calls: Calls) returns (end: State)
    requires w !in s.writers && target.Plain? && tmp.Temporary? && tmp !in s.drawn && tmp !in s.names && inode !in s.nodes
    requires forall n :: n in s.names ==> s.names[n] in s.nodes
    requires arrived <= |body| && (whole ==> arrived == |body|)
    ensures Leads(s, w, end) && w in end.writers && end.writers[w].pc.Done?
    ensures Writes(s.names, s.nodes, end.names, end.nodes, target, force, body[..arrived], whole, tmp, inode, calls,
                   end.writers[w].pc.outcome)
  {
    var begun := Apply(s, Begin(w, target, force, body));
    end := StartLeads(begun, w, arrived, whole, tmp, inode, calls);
    StepLeads(s, Begin(w, target, force, body), w, end);
  }
}

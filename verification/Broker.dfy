/** The broker's global box and client arrays, updated in place; each method computes its function in Registry.dfy. */
module BrokerTable {
  import opened Bytes
  import opened Common
  import opened Inodes
  import opened TfsState
  import opened TecnicoFs
  import opened Registry
  import R = Registry

  class Broker {
    const boxes: array<Box>
    const free: array<bool>
    var numBoxes: int
    const workers: array<Worker>
    const fs: Tfs

    ghost function View(): Table
      reads this, boxes, free
    {
      Table(boxes[..], free[..], numBoxes)
    }

    ghost predicate Ready() {
      && boxes.Length == free.Length == MAX_BOXES
      && fs.Ready() && free !in fs.Memory()
    }

    /** The static arrays, and `mbroker_init`'s allocation of the workers and loop over `free_boxes`. */
    constructor (fs: Tfs, memory: seq<Worker>)
      requires fs.Ready()
      ensures Ready() && this.fs == fs && View() == EmptyTable() && workers[..] == memory
    {
      workers := new Worker[|memory|](i requires 0 <= i < |memory| => memory[i]);
      boxes := new Box[MAX_BOXES](_ => Box([], 0, 0, 0));
      free := new bool[MAX_BOXES];
      numBoxes := 0;
      this.fs := fs;
      new;
      var i := 0;
      while i < MAX_BOXES
        invariant 0 <= i <= MAX_BOXES
        invariant forall j :: 0 <= j < i ==> free[j]
        invariant boxes[..] == EmptyTable().boxes && numBoxes == 0
        modifies free
      {
        free[i] := true;
        i := i + 1;
      }
      assert free[..] == EmptyTable().free;
    }

    method GetBox(name: seq<byte>) returns (r: int)
      requires Ready()
      ensures r == R.GetBox(boxes[..], name)
    {
      var i := 0;
      while i < MAX_BOXES
        invariant 0 <= i <= MAX_BOXES
        invariant forall j :: 0 <= j < i ==> boxes[j].name != name
      {
        if boxes[i].name == name {
          assert boxes[..][i].name == name;
          return i;
        }
        i := i + 1;
      }
      assert forall j :: 0 <= j < |boxes[..]| ==> boxes[..][j].name != name;
      return -1;
    }

    /** Marks the slot it returns as taken. */
    method GetFreeBox() returns (r: int)
      requires Ready()
      modifies free
      ensures r == FirstFree(Used(old(free[..])))
      ensures free[..] == if r == -1 then old(free[..]) else old(free[..])[r := false]
    {
      var i := 0;
      while i < MAX_BOXES
        invariant 0 <= i <= MAX_BOXES
        invariant forall j :: 0 <= j < i ==> !free[j]
        invariant unchanged(free)
      {
        if free[i] {
          assert !Used(free[..])[i];
          free[i] := false;
          return i;
        }
        i := i + 1;
      }
      assert forall j :: 0 <= j < |free[..]| ==> Used(free[..])[j];
      return -1;
    }

    method CreateBox(name: seq<byte>) returns (created: bool)
      requires Ready()
      modifies this`numBoxes, boxes, free
      ensures (View(), created) == R.CreateBox(old(View()), name)
    {
      numBoxes := numBoxes + 1;
      var i := GetFreeBox();
      if i == -1 {
        return false;
      }
      boxes[i] := Box(name, 0, 0, 0);
      created := true;
    }

    /** The part of `handle_tfs_create_box` under `boxes_lock`. */
    method AnswerCreate(name: seq<byte>) returns (code: int)
      requires Ready()
      modifies this`numBoxes, boxes, free
      ensures (View(), code) == CreateCode(old(View()), name)
    {
      if numBoxes == MAX_BOXES {
        return -1;
      }
      var i := GetBox(name);
      if i != -1 {
        return -1;
      }
      var created := CreateBox(name);
      code := if created then 0 else -1;
    }

    /** `finish_client_session`, where it looks at the worker and changes it. */
    method FinishSession(w: nat) returns (ok: bool)
      requires w < workers.Length
      modifies workers
      ensures (workers[w], ok) == Finish(old(workers[w]))
      ensures workers[..] == old(workers[..])[w := workers[w]]
    {
      if !workers[w].closes {
        return false;
      }
      if !workers[w].listing && workers[w].fd == -1 {
        return false;
      }
      workers[w] := workers[w].(name := [], fd := -1);
      ok := true;
    }

    /** The loop of `handle_tfs_remove_box` over all workers. */
    method EndSessions(me: nat, name: seq<byte>) returns (ended: bool)
      modifies workers
      ensures (workers[..], ended) == EndFrom(old(workers[..]), 0, me, name)
    {
      var i := 0;
      while i < workers.Length
        invariant 0 <= i <= workers.Length
        invariant EndFrom(workers[..], i, me, name) == EndFrom(old(workers[..]), 0, me, name)
      {
        if workers[i].name == name && i != me {
          ghost var ws := workers[..];
          var ok := FinishSession(i);
          if !ok {
            assert workers[..] == ws;
            return false;
          }
        }
        i := i + 1;
      }
      ended := true;
    }

    /** The end of both handlers. */
    method SendAnswer(me: nat, pipe: Pipe) returns (alive: bool)
      requires me < workers.Length
      modifies workers
      ensures forall t, s, code ::
        Outcome(t, s, workers[..], alive, code) == Answer(t, s, old(workers[..]), me, pipe, code)
    {
      if !pipe.writes {
        return false;
      }
      alive := FinishSession(me);
    }

    /** `handle_tfs_create_box` from where it has given up `boxes_lock`. */
    method FinishCreate(me: nat, code: int, pipe: Pipe) returns (alive: bool)
      requires Ready() && Storage(fs.View()) && me < workers.Length && NulFree(workers[me].name)
      modifies workers, fs.Memory()
      ensures Outcome(View(), fs.View(), workers[..], alive, code) ==
              R.FinishCreate(old(View()), old(fs.View()), old(workers[..]), me, code, pipe)
    {
      hide Open, Storage;
      var h := fs.TfsOpen(workers[me].name, CREATE);
      if h < 0 {
        return false;
      }
      workers[me] := workers[me].(fd := h);
      if !pipe.opens {
        return false;
      }
      alive := SendAnswer(me, pipe);
    }

    /** `handle_tfs_create_box` */
    method HandleCreate(me: nat, name: seq<byte>, pipe: Pipe) returns (alive: bool, code: int)
      requires Ready() && Storage(fs.View()) && NulFree(name) && me < workers.Length
      modifies this`numBoxes, boxes, free, workers, fs.Memory()
      ensures Outcome(View(), fs.View(), workers[..], alive, code) ==
              R.HandleCreate(old(View()), old(fs.View()), old(workers[..]), me, name, pipe)
    {
      hide Open, Storage, CreateCode, R.FinishCreate;
      workers[me] := Worker(name, workers[me].fd, false, pipe.closes);
      code := AnswerCreate(name);
      assert fs.View() == old(fs.View());
      alive := FinishCreate(me, code, pipe);
    }

    /** The loop of `remove_box` ends at the slot; the flag goes first, the name last. */
    method RemoveBox(name: seq<byte>) returns (ok: bool)
      requires Ready() && Storage(fs.View()) && NulFree(name) && R.GetBox(boxes[..], name) != -1
      modifies this`numBoxes, boxes, free, fs.Memory()
      ensures (View(), fs.View(), ok) == R.RemoveBox(old(View()), old(fs.View()), R.GetBox(old(boxes[..]), name))
    {
      hide Unlink, Storage;
      var i := GetBox(name);
      free[i] := true;
      assert fs.View() == old(fs.View());
      var r := fs.TfsUnlink(boxes[i].name);
      if r == -1 {
        return false;
      }
      boxes[i] := Box([], 0, 0, 0);
      numBoxes := numBoxes - 1;
      ok := true;
    }

    /** `handle_tfs_remove_box` */
    method HandleRemove(me: nat, name: seq<byte>, pipe: Pipe) returns (alive: bool, code: int)
      requires Ready() && Storage(fs.View()) && NulFree(name) && me < workers.Length
      modifies this`numBoxes, boxes, free, workers, fs.Memory()
      ensures Outcome(View(), fs.View(), workers[..], alive, code) ==
              R.HandleRemove(old(View()), old(fs.View()), old(workers[..]), me, name, pipe)
    {
      hide Unlink, Storage, R.RemoveBox, EndFrom;
      workers[me] := Worker(name, workers[me].fd, false, pipe.closes);
      code := 0;
      if !pipe.opens {
        return false, 0;
      }
      var i := GetBox(name);
      if i == -1 {
        code := -1;
      } else {
        var ended := EndSessions(me, name);
        if !ended {
          return false, 0;
        }
        assert fs.View() == old(fs.View()) && View() == old(View());
        var removed := RemoveBox(name);
        if !removed {
          return false, 0;
        }
      }
      alive := SendAnswer(me, pipe);
    }
  }
}

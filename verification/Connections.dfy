/** The Connection object (shared/src/shared/network/Connection.hpp). Each method is one
    segment of the source, from the point where it is resumed to the next suspension, and is
    proved to be the step of the same name in ConnectionSpec.

    The close handler is the last thing every path through stopImpl does, so it is
    represented by the flag `notify` that a method returns to whoever resumed it. */
module Connections {
  import opened Prelude
  import opened FrameCodec
  import opened Framing
  import opened ConnectionSpec

  class Connection<In, Out> {
    const id: nat
    const lim: Limits<Out>
    ghost const serial: nat     // tells apart the connections one owner creates over time

    var started: bool
    var closed: bool
    var writing: bool
    var writeQueue: seq<Out>
    var tasks: seq<Task<Out>>
    var readers: seq<Reader<In>>
    var writers: seq<Writer<Out>>

    ghost var accepted: seq<Out>
    ghost var flushed: seq<Out>
    ghost var wire: seq<Byte>
    ghost var received: seq<In>
    ghost var notices: nat

    ghost function View(): Conn<In, Out>
      reads this
    {
      Conn(started, closed, writing, writeQueue, tasks, readers, writers, accepted, flushed, wire, received, notices)
    }

    constructor (id: nat, lim: Limits<Out>, ghost serial: nat)
      ensures this.id == id && this.lim == lim && this.serial == serial && View() == Created()
    {
      this.id, this.lim, this.serial := id, lim, serial;
      started, closed, writing := false, false, false;
      writeQueue, tasks, readers, writers := [], [], [], [];
      accepted, flushed, wire, received, notices := [], [], [], [], 0;
    }

    method Start()
      modifies this
      ensures View() == Post(old(View()), StartTask)
    {
      tasks := tasks + [StartTask];
    }

    method Stop()
      modifies this
      ensures View() == Post(old(View()), StopTask)
    {
      tasks := tasks + [StopTask];
    }

    method Send(message: Out)
      modifies this
      ensures View() == Post(old(View()), SendTask(message))
    {
      tasks := tasks + [SendTask(message)];
    }

    method StartImpl()
      modifies this
      ensures View() == ConnectionSpec.StartImpl(old(View()))
    {
      if started || closed {
        return;
      }
      started := true;
      readers := readers + [ReaderSpawned];
    }

    method StopImpl() returns (notify: bool)
      modifies this
      ensures View() == ConnectionSpec.StopImpl(old(View()))
      ensures notify <==> View().notices > old(View()).notices
    {
      if closed {
        return false;
      }
      closed := true;
      writeQueue := [];
      writing := false;
      notices := notices + 1;
      return true;
    }

    method SendImpl(message: Out) returns (notify: bool)
      modifies this
      ensures View() == ConnectionSpec.SendImpl(lim, old(View()), message)
      ensures notify <==> View().notices > old(View()).notices
    {
      if closed {
        return false;
      }
      if |writeQueue| >= lim.maxQueued {
        notify := StopImpl();
        return;
      }
      writeQueue := writeQueue + [message];
      accepted := accepted + [message];
      if writing {
        return false;
      }
      writing := true;
      writers := writers + [WriterSpawned];
      return false;
    }

    /** The strand runs the task at its front; the task first tries to lock its weak pointer. */
    method RunTask(alive: bool) returns (notify: bool)
      requires tasks != []
      modifies this
      ensures View() == ConnectionSpec.RunTask(lim, old(View()), alive)
      ensures notify <==> View().notices > old(View()).notices
    {
      var task := tasks[0];
      tasks := tasks[1..];
      notify := false;
      if alive {
        match task
        case StartTask => StartImpl();
        case StopTask => notify := StopImpl();
        case SendTask(m) => notify := SendImpl(m);
      }
    }

    method WriteFails(i: nat) returns (notify: bool)
      requires i < |writers|
      modifies this
      ensures View() == ConnectionSpec.WriteFails(old(View()), i)
      ensures notify <==> View().notices > old(View()).notices
    {
      writing := false;
      writers := RemoveAt(writers, i);
      notify := StopImpl();
    }

    method WriterLoop(i: nat) returns (notify: bool)
      requires i < |writers|
      modifies this
      ensures View() == ConnectionSpec.WriterLoop(lim, old(View()), i)
      ensures notify <==> View().notices > old(View()).notices
    {
      if closed || writeQueue == [] {
        writing := false;
        writers := RemoveAt(writers, i);
        return false;
      }
      var message := writeQueue[0];
      writeQueue := writeQueue[1..];
      if !Encodable(lim.proto, lim.maxBytes, message) {
        notify := WriteFails(i);
        return;
      }
      writers := writers[i := WritingPrefix(message, 0)];
      return false;
    }

    method ReaderLoop(i: nat)
      requires i < |readers|
      modifies this
      ensures View() == ConnectionSpec.ReaderLoop(old(View()), i)
    {
      if closed {
        readers := RemoveAt(readers, i);
      } else {
        readers := readers[i := Reading];
      }
    }

    /** A whole message has been read; `deliver` says whether the handler is now called with it. */
    method ReadCompletes(i: nat, message: In) returns (deliver: bool)
      requires i < |readers|
      modifies this
      ensures View() == ConnectionSpec.ReadCompletes(old(View()), i, message)
      ensures deliver <==> !old(closed)
    {
      if closed {
        readers := RemoveAt(readers, i);
        return false;
      }
      received := received + [message];
      readers := readers[i := Handling(message)];
      return true;
    }

    method ReadEnds(i: nat) returns (notify: bool)
      requires i < |readers|
      modifies this
      ensures View() == ConnectionSpec.ReadEnds(old(View()), i)
      ensures notify <==> View().notices > old(View()).notices
    {
      readers := RemoveAt(readers, i);
      notify := StopImpl();
    }

    method HandlerReturns(i: nat, ok: bool) returns (notify: bool)
      requires i < |readers|
      modifies this
      ensures View() == ConnectionSpec.HandlerReturns(old(View()), i, ok)
      ensures notify <==> View().notices > old(View()).notices
    {
      if ok {
        ReaderLoop(i);
        return false;
      }
      notify := ReadEnds(i);
    }

    /** The event loop resumes the connection. Whatever the event, the object takes exactly the
        step of the state machine, so everything proved of its runs is proved of the object. */
    method Resume(e: Event<In, Out>) returns (notify: bool)
      requires Enabled(lim, View(), e)
      modifies this
      ensures View() == Step(lim, old(View()), e)
      ensures notify <==> View().notices > old(View()).notices
    {
      notify := false;
      match e
      case Posted(task) => tasks := tasks + [task];
      case TaskRuns(alive) => notify := RunTask(alive);
      case WriterBegins(i) => notify := WriterLoop(i);
      case BytesTaken(i, n) =>
        var w := writers[i];
        wire := wire + Frame(lim.proto, lim.maxBytes, w.message)[Progress(w)..Progress(w) + n];
        writers := writers[i := Advance(w, n)];
      case PrefixWritten(i) => writers := writers[i := WritingPayload(writers[i].message, 0)];
      case PayloadWritten(i) =>
        flushed := flushed + [writers[i].message];
        notify := WriterLoop(i);
      case WriteFailed(i) => notify := WriteFails(i);
      case ReaderBegins(i) => ReaderLoop(i);
      case MessageRead(i, m) => var _ := ReadCompletes(i, m);
      case ReadFailed(i) => notify := ReadEnds(i);
      case HandlerDone(i, ok) => notify := HandlerReturns(i, ok);
    }
  }
}

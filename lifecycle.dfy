/** The life cycle of the embedded automation server: the process-wide singleton created by
    `install`, and `start` / `stop` / `isRunning` on its three handles (loop thread, worker
    pool, listening socket).  Threads, pools and sockets are reduced to the flags these
    operations read and write; whatever the operating system decides (does the bind succeed,
    does `close` throw) is a parameter of the method that meets it. */
module Lifecycle {
  import Numerals

  /** The port `install` creates the singleton on. */
  const ViewServerDefaultPort: int := 4939
  /** Size of the worker pool, and the listening socket's backlog. */
  const ViewServerMaxConnections: nat := 10

  /** An Android context handed to `install`; only its identity matters. */
  class Context { }

  /** A host-application window (an activity); identity is reference identity. */
  class Activity { }

  /** The server's loop thread. */
  class LoopThread {
    const name: string
    var started: bool
    var alive: bool
    var interrupted: bool

    constructor (name: string)
      ensures this.name == name && !started && !alive && !interrupted
    {
      this.name := name;
      started, alive, interrupted := false, false, false;
    }

    /** `Thread.start()`: the thread begins to run `run()`. */
    method Start()
      requires !started
      modifies this
      ensures started && alive && interrupted == old(interrupted)
    {
      started, alive := true, true;
    }

    /** `Thread.interrupt()`: only sets the interrupt flag. */
    method Interrupt()
      modifies this`interrupted
      ensures interrupted
    {
      interrupted := true;
    }
  }

  /** The fixed-size executor the loop thread hands connections to. */
  class WorkerPool {
    const capacity: nat
    var isShutdown: bool

    constructor (capacity: nat)
      ensures this.capacity == capacity && !isShutdown
    {
      this.capacity := capacity;
      isShutdown := false;
    }

    /** `shutdownNow()`: no further task starts. */
    method ShutdownNow()
      modifies this
      ensures isShutdown
    {
      isShutdown := true;
    }
  }

  /** The bound listening socket. */
  class ListeningSocket {
    const port: int
    const backlog: nat
    var closed: bool

    constructor (port: int, backlog: nat)
      ensures this.port == port && this.backlog == backlog && !closed
    {
      this.port, this.backlog := port, backlog;
      closed := false;
    }

    /** `close()`; `succeeds` is false when the platform throws `IOException`, and then the
        socket is not known to be closed. */
    method Close(succeeds: bool) returns (ok: bool)
      modifies this
      ensures ok == succeeds
      ensures closed == (old(closed) || succeeds)
    {
      ok := succeeds;
      if succeeds {
        closed := true;
      }
    }
  }

  /** The shared registry of windows and focus.  Its own bookkeeping (adding, removing,
      focusing) is not modelled; only the two clears that `stop` performs are. */
  class WindowRegistry {
    var windows: seq<Activity>
    var focused: Activity?

    constructor ()
      ensures windows == [] && focused == null
    {
      windows, focused := [], null;
    }

    method ClearWindows()
      modifies this`windows
      ensures windows == []
    {
      windows := [];
    }

    method ClearFocusedWindow()
      modifies this`focused
      ensures focused == null
    {
      focused := null;
    }
  }

  /** How a call to `stop()` ends: it returns a boolean, or `mServer.close()` is invoked on a
      null socket and the `NullPointerException` escapes (only `IOException` is caught). */
  datatype StopOutcome = Returned(stopped: bool) | NullSocket

  class Server {
    const port: int
    /** The process-wide registry that `stop` clears (a static field of the source class). */
    const windowManager: WindowRegistry
    var thread: LoopThread?
    var pool: WorkerPool?
    var socket: ListeningSocket?

    constructor (port: int, windowManager: WindowRegistry)
      ensures this.port == port && this.windowManager == windowManager
      ensures thread == null && pool == null && socket == null
    {
      this.port, this.windowManager := port, windowManager;
      thread, pool, socket := null, null, null;
    }

    /** `isRunning()`: a thread handle is set and that thread is still alive; the socket is
        not consulted. */
    predicate IsRunning()
      reads this, thread
    {
      thread != null && thread.alive
    }

    /** `start()`: refuses whenever a thread handle is set (alive or not); otherwise creates
        and starts the loop thread and creates the worker pool, without touching the socket,
        which the loop thread binds later. */
    method Start() returns (started: bool)
      modifies this
      ensures started <==> old(thread) == null
      ensures !started ==> unchanged(this)
      ensures started ==> fresh(thread) && fresh(pool) && socket == old(socket)
      ensures started ==> thread.alive && !thread.interrupted
      ensures started ==> thread.name == "Local View Server [port=" + Numerals.IntToString(port) + "]"
      ensures started ==> pool.capacity == ViewServerMaxConnections && !pool.isShutdown
      ensures started ==> IsRunning()
    {
      if thread != null {
        return false;
      }
      var t := new LoopThread("Local View Server [port=" + Numerals.IntToString(port) + "]");
      thread := t;
      pool := new WorkerPool(ViewServerMaxConnections);
      t.Start();
      return true;
    }

    /** `stop()`.  With no thread handle it only clears the registry and returns false.
        Otherwise it interrupts the thread, shuts the pool down, drops both handles and closes
        the socket: a successful close drops the socket handle and returns true WITHOUT
        clearing the registry; a failed close keeps the socket handle, clears the registry and
        returns false; a null socket makes `close()` throw before anything else happens. */
    method Stop(closeSucceeds: bool) returns (r: StopOutcome)
      modifies this, thread, pool, socket, windowManager
      ensures old(thread) != null ==> old(thread).interrupted
      ensures old(thread) != null ==>
                old(thread).alive == old(thread.alive) && old(thread).started == old(thread.started)
      ensures old(thread) == null && old(pool) != null ==> old(pool).isShutdown == old(pool.isShutdown)
      ensures old(socket) != null && (old(thread) == null || !closeSucceeds) ==>
                old(socket).closed == old(socket.closed)
      ensures old(thread) != null && old(pool) != null ==> old(pool).isShutdown
      ensures old(thread) != null ==> thread == null && pool == null
      ensures old(thread) == null ==> thread == null && pool == old(pool) && socket == old(socket)
      ensures old(thread) == null ==>
                r == Returned(false) && windowManager.windows == [] && windowManager.focused == null
      ensures old(thread) != null && old(socket) == null ==>
                r == NullSocket && socket == null && unchanged(windowManager)
      ensures old(thread) != null && old(socket) != null && closeSucceeds ==>
                r == Returned(true) && socket == null && old(socket).closed && unchanged(windowManager)
      ensures old(thread) != null && old(socket) != null && !closeSucceeds ==>
                r == Returned(false) && socket == old(socket) &&
                windowManager.windows == [] && windowManager.focused == null
    {
      if thread != null {
        thread.Interrupt();
        if pool != null {
          pool.ShutdownNow();
        }
        pool := null;
        thread := null;
        if socket == null {
          return NullSocket;
        }
        var closed := socket.Close(closeSucceeds);
        if closed {
          socket := null;
          return Returned(true);
        }
      }
      windowManager.ClearWindows();
      windowManager.ClearFocusedWindow();
      return Returned(false);
    }

    /** The first step of `run()`, executed by `runner`: try to bind a listening socket on
        the port.  A failed bind leaves the socket handle as it was; the accept loop is then
        entered only while a socket handle is set and `runner` is still the thread of record,
        so otherwise `run()` returns and the thread dies. */
    method BindInLoopThread(runner: LoopThread, bindSucceeds: bool)
      requires runner.alive
      modifies this`socket, runner`alive
      ensures bindSucceeds ==> fresh(socket) && socket.port == port &&
                               socket.backlog == ViewServerMaxConnections && !socket.closed
      ensures !bindSucceeds ==> socket == old(socket)
      ensures runner.alive <==> socket != null && runner == thread
    {
      if bindSucceeds {
        socket := new ListeningSocket(port, ViewServerMaxConnections);
      }
      if !(socket != null && runner == thread) {
        runner.alive := false;
      }
    }
  }

  /** The static state of the source class: the singleton, the shared window registry and
      the current context. */
  class Statics {
    var sServer: Server?
    const windowManager: WindowRegistry
    var currContext: Context?

    ghost predicate Valid()
      reads this, sServer
    {
      sServer != null ==> sServer.port == ViewServerDefaultPort && sServer.windowManager == windowManager
    }

    constructor ()
      ensures Valid() && sServer == null && currContext == null
      ensures fresh(windowManager) && windowManager.windows == [] && windowManager.focused == null
    {
      sServer := null;
      windowManager := new WindowRegistry();
      currContext := null;
    }

    /** `install(context)`: creates the singleton on the default port if there is none,
        starts it unless `isRunning()` holds, and records `context` as the current context.
        Because `start` refuses whenever a thread handle is set, a singleton whose loop thread
        has died keeps its dead thread: `install` never revives it. */
    method Install(context: Context?) returns (s: Server)
      requires Valid()
      modifies this, sServer
      ensures Valid() && sServer == s && currContext == context
      ensures old(sServer) != null ==> s == old(sServer)
      ensures old(sServer) == null ==> fresh(s) && s.port == ViewServerDefaultPort
      ensures old(sServer != null && sServer.IsRunning()) ==> unchanged(s)
      ensures old(sServer == null || sServer.thread == null) ==>
                fresh(s.thread) && fresh(s.pool) && s.IsRunning() && s.socket == old(if sServer == null then null else sServer.socket)
      ensures old(sServer != null && sServer.thread != null) ==>
                s.thread == old(sServer.thread) && s.pool == old(sServer.pool) && s.socket == old(sServer.socket) &&
                s.IsRunning() == old(sServer.IsRunning())
    {
      if sServer == null {
        sServer := new Server(ViewServerDefaultPort, windowManager);
      }
      if !sServer.IsRunning() {
        var _ := sServer.Start();
      }
      currContext := context;
      s := sServer;
    }
  }

  /** Two installs in a row: the second returns the same singleton, and the loop thread the
      first one started is the only one. */
  method InstallTwice(context: Context?) returns (same: bool, oneThread: bool)
    ensures same && oneThread
  {
    var statics := new Statics();
    var s1 := statics.Install(context);
    var t := s1.thread;
    var s2 := statics.Install(context);
    same := s1 == s2;
    oneThread := s2.thread == t && s2.IsRunning();
  }

  /** The loop thread's bind fails, so it dies; a later `install` does not restart it, and
      `stop` then calls `close()` on the null socket. */
  method DeadThreadNotRevived(context: Context?) returns (running: bool, outcome: StopOutcome)
    ensures !running && outcome == NullSocket
  {
    var statics := new Statics();
    var s := statics.Install(context);
    var t := s.thread;
    s.BindInLoopThread(t, false);
    var s2 := statics.Install(context);
    running := s2.IsRunning();
    outcome := s2.Stop(true);
  }

  /** A failed `close()`: `stop` returns false, the socket it could not close is still open,
      and the interrupted loop thread has not been killed by `stop` itself. */
  method FailedCloseKeepsSocketOpen(context: Context?) returns (outcome: StopOutcome, socketOpen: bool, threadAlive: bool)
    ensures outcome == Returned(false) && socketOpen && threadAlive
  {
    var statics := new Statics();
    var s := statics.Install(context);
    var t := s.thread;
    s.BindInLoopThread(t, true);
    var sock := s.socket;
    outcome := s.Stop(false);
    socketOpen := !sock.closed;
    threadAlive := t.alive;
  }

  /** A clean shutdown: bind succeeds, `stop` closes the socket and returns true, and a
      later `start` creates a new loop thread. */
  method StopThenRestart(context: Context?) returns (stopped: StopOutcome, restarted: bool)
    ensures stopped == Returned(true) && restarted
  {
    var statics := new Statics();
    var s := statics.Install(context);
    s.BindInLoopThread(s.thread, true);
    stopped := s.Stop(true);
    restarted := s.Start();
  }
}

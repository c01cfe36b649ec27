/** The thread manager: a registry of running threads by name, and the errors of failed threads. */
module Threading {
  import opened Prelude

  type ThreadId = nat

  /** An exception that ended a thread; waiting for a thread suppresses AttributeError. */
  datatype Failure = Failure(thread: ThreadId, attributeError: bool)

  datatype Exception = KeyError | ThreadFailed(failure: Failure)

  type Registry = map<string, ThreadId>

  type Errors = map<string, Failure>

  /** The registry after adding a thread, if its name is free. */
  function Added(objs: Registry, name: string, thread: ThreadId): Result<Registry, Exception> {
    if name in objs then Err(KeyError) else Ok(objs[name := thread])
  }

  /** The registry after removing a name, if it is there. */
  function Removed(objs: Registry, name: string): Result<Registry, Exception> {
    if name in objs then Ok(objs - {name}) else Err(KeyError)
  }

  /** What popping the error of a name raises, and what is left. */
  function Popped(errors: Errors, name: string): (Errors, Exception) {
    if name in errors then (errors - {name}, ThreadFailed(errors[name])) else (errors, KeyError)
  }

  class ThreadManager {
    var objs: Registry
    var errors: Errors
    var started: seq<ThreadId> // the threads that were started, in order

    constructor ()
      ensures objs == map[] && errors == map[] && started == []
    {
      objs, errors, started := map[], map[], [];
    }

    /** add: register a thread and start it; the name must be free. */
    method Add(name: string, thread: ThreadId) returns (r: Result<string, Exception>)
      modifies this`objs, this`started
      ensures match Added(old(objs), name, thread)
              case Ok(objs') => r == Ok(name) && objs == objs' && started == old(started) + [thread]
              case Err(e) => r == Err(e) && objs == old(objs) && started == old(started)
    {
      if name in objs {
        return Err(KeyError);
      }
      objs := objs[name := thread];
      started := started + [thread];
      r := Ok(name);
    }

    /** remove: the name must be registered. */
    method Remove(name: string) returns (r: Result<(), Exception>)
      modifies this`objs
      ensures match Removed(old(objs), name)
              case Ok(objs') => r == Ok(()) && objs == objs'
              case Err(e) => r == Err(e) && objs == old(objs)
    {
      if name !in objs {
        return Err(KeyError);
      }
      objs := map n | n in objs && n != name :: objs[n];
      r := Ok(());
    }

    method Exists(name: string) returns (b: bool)
      ensures b <==> name in objs
    {
      b := name in objs;
    }

    /** raise_if_error: take out and raise the error of a name, if there is one. */
    method RaiseIfError(name: string) returns (r: Result<(), Exception>)
      modifies this`errors
      ensures if name in old(errors) then errors == old(errors) - {name} && r == Err(ThreadFailed(old(errors)[name]))
              else errors == old(errors) && r == Ok(())
    {
      if name !in errors {
        return Ok(());
      }
      var failure := errors[name];
      errors := map n | n in errors && n != name :: errors[n];
      r := Err(ThreadFailed(failure));
    }

    /** get: the registered thread of a name, after raising its error if it has one. */
    method Get(name: string) returns (r: Result<Option<ThreadId>, Exception>)
      modifies this`errors
      ensures name !in objs ==> r == Ok(None) && errors == old(errors)
      ensures name in objs && name !in old(errors) ==> r == Ok(Some(objs[name])) && errors == old(errors)
      ensures name in objs && name in old(errors) ==>
                r == Err(ThreadFailed(old(errors)[name])) && errors == old(errors) - {name}
    {
      if name !in objs {
        return Ok(None);
      }
      var raised := RaiseIfError(name);
      r := if raised.Ok? then Ok(Some(objs[name])) else Err(raised.error);
    }

    /** set_error: a later error of the same name replaces an earlier one. */
    method SetError(name: string, failure: Failure)
      modifies this`errors
      ensures errors == old(errors)[name := failure]
    {
      errors := errors[name := failure];
    }
  }
}

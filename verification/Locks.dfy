/** Readers-writer locks as POSIX describes them: one writer, or any number of readers. */
module Locks {
  import opened Wrappers

  datatype Lock = Lock(writer: Option<nat>, readers: set<nat>)

  const FREE := Lock(None, {})

  predicate FreeToWrite(lock: Lock) { lock.writer.None? && lock.readers == {} }

  predicate FreeToRead(lock: Lock) { lock.writer.None? }

  function WriteLock(lock: Lock, t: nat): Lock { lock.(writer := Some(t)) }

  function WriteUnlock(lock: Lock): Lock { lock.(writer := None) }

  function ReadLock(lock: Lock, t: nat): Lock { lock.(readers := lock.readers + {t}) }

  function ReadUnlock(lock: Lock, t: nat): Lock { lock.(readers := lock.readers - {t}) }
}

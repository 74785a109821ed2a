/** What several parts of the model share. */
module Common {
  datatype Option<T> = None | Some(value: T)

  ghost predicate NoDup<T>(s: seq<T>) {
    forall i, j :: 0 <= i < j < |s| ==> s[i] != s[j]
  }

  /** THREAD_STATE_* of kernel/include/thread.h. */
  datatype ThreadState = Waiting | Ready | Running | Finished
}

/** The one bound on worker counts (thread_policy.h). */
module ThreadPolicy {
  const THREADS_MAX := 64
}

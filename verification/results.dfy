/** Outcome of an operation that the Python code can abort by raising an exception
    (MaxHeap.heappush and TaskScheduler.get_tasks_ready raise ValueError). */
module Results {

  datatype Result<+R, +E> = Success(value: R) | Failure(error: E)

}

/** The poll-based future contract shared by the coroutine and the requests it awaits. */
module Future {

  /** The answer to one poll: not finished yet, or finished with the value it yields. */
  datatype PollState<T> = NotReady | Ready(value: T)
}

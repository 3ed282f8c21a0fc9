/** The one entity of the application, a lead, and the values it is built from. */
module Leads {

  datatype Option<T> = None | Some(value: T)

  /** The two values the status column may hold. */
  datatype Status = Pending | ReachedOut

  /** The spelling of a status on the wire and in the database. */
  function StatusName(s: Status): (name: string)
    ensures name == "PENDING" <==> s == Pending
    ensures name == "REACHED_OUT" <==> s == ReachedOut
  {
    match s
    case Pending => "PENDING"
    case ReachedOut => "REACHED_OUT"
  }

  /** `status === 'PENDING' ? 'REACHED_OUT' : 'PENDING'` */
  function Flip(s: Status): (t: Status)
    ensures t != s
  {
    if s == Pending then ReachedOut else Pending
  }

  lemma FlipInvolutive(s: Status)
    ensures Flip(Flip(s)) == s
  {
  }

  /** A browser `File`: its name and its size in bytes (the bytes themselves are not modelled). */
  datatype File = File(name: string, size: nat)

  /** One stored attachment: the name the user chose and the public path it is served from. */
  datatype FileDescriptor = FileDescriptor(name: string, path: string)

  /**
   * A lead as the database returns it. `files` holds the descriptor list that
   * the submission handler serialises; `status` is absent for rows written
   * before the status column existed.
   */
  datatype Lead = Lead(
    id: string,
    firstName: string,
    lastName: string,
    email: string,
    country: Option<string>,
    website: string,
    message: string,
    visaCategoryO1: bool,
    visaCategoryEB1A: bool,
    visaCategoryEB2NIW: bool,
    visaCategoryUnknown: bool,
    files: Option<seq<FileDescriptor>>,
    createdAt: int,
    status: Option<Status>)

  /** A prefix one longer is the shorter prefix and the element at its end. */
  lemma TakeLast<T>(s: seq<T>, k: nat)
    requires 0 < k <= |s|
    ensures s[..k] == s[..k - 1] + [s[k - 1]]
  {
  }

  /** Dropping the last element of `a + b` drops the last element of `b`. */
  lemma AppendLast<T>(a: seq<T>, b: seq<T>)
    requires b != []
    ensures (a + b)[..|a + b| - 1] == a + b[..|b| - 1]
    ensures (a + b)[|a + b| - 1] == b[|b| - 1]
  {
  }
}

/**
 * The in-memory file client used by the SDK's tests: a mutex-guarded map from
 * file names to byte contents. The mutex is left out; the map is a value that
 * every operation receives and, when it writes, returns.
 */
module TestFileClient {
  import opened Results

  type Byte = bv8
  type FileName = string

  /** Errors the file client reports. */
  datatype FileClientError = NotFound | Fatal

  datatype FileClient = FileClient(data: map<FileName, seq<Byte>>)

  /** A client holding no files. */
  function Empty(): (c: FileClient)
    ensures forall n :: n !in c.data
  {
    FileClient(map[])
  }

  /**
   * Stores `content` under `name`, replacing any earlier content of that name.
   * The operation never fails in the model.
   */
  function PersistContent(c: FileClient, name: FileName, content: seq<Byte>): (r: Result<FileClient, FileClientError>)
    ensures r.Success?
    ensures name in r.value.data && r.value.data[name] == content
    ensures r.value.data.Keys == c.data.Keys + {name}
    ensures forall n {:trigger r.value.data[n]} :: n in c.data && n != name ==> r.value.data[n] == c.data[n]
  {
    Success(FileClient(c.data[name := content]))
  }

  /** Reads the content stored under `name`, or reports `NotFound`. */
  function ReadContent(c: FileClient, name: FileName): (r: Result<seq<Byte>, FileClientError>)
    ensures r.Success? <==> name in c.data
    ensures r.Success? ==> r.value == c.data[name]
    ensures r.Failure? ==> r.error == NotFound
  {
    if name in c.data then Success(c.data[name]) else Failure(NotFound)
  }

  /** Reading back what was just persisted yields exactly that content. */
  lemma ReadAfterPersist(c: FileClient, name: FileName, content: seq<Byte>)
    ensures ReadContent(PersistContent(c, name, content).value, name) == Success(content)
  {
  }

  /** A name that was never persisted is not found. */
  lemma ReadNeverPersisted(name: FileName)
    ensures ReadContent(Empty(), name) == Failure(NotFound)
  {
  }

  /** Persisting twice under one name keeps only the last content. */
  lemma LastWriteWins(c: FileClient, name: FileName, first: seq<Byte>, second: seq<Byte>)
    ensures PersistContent(PersistContent(c, name, first).value, name, second)
         == PersistContent(c, name, second)
  {
    assert c.data[name := first][name := second] == c.data[name := second];
  }

  /** Persisting one name leaves what every other name reads unchanged. */
  lemma PersistFrame(c: FileClient, name: FileName, content: seq<Byte>, other: FileName)
    requires other != name
    ensures ReadContent(PersistContent(c, name, content).value, other) == ReadContent(c, other)
  {
  }
}

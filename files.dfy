/**
 * The one file a manager works on, as abstract state: nothing there, a
 * directory, or a regular file whose text is empty, a JSON document, or
 * not JSON at all.  Turning text into JSON is not modelled.
 */
module Files {
  import opened Wrappers
  import opened Errors
  import opened Json

  datatype Content = Blank | Text(doc: Json) | Malformed

  datatype Node = Absent | Directory | Regular(content: Content)

  /** A filesystem path. */
  datatype Path = Path(text: string)

  /** The `uri: Path | str` argument of BaseManager. */
  datatype Uri = UriText(s: string) | UriPath(p: Path)

  /** `uri if isinstance(uri, Path) else Path(uri)`: a path is kept as given, a string becomes a path. */
  function ToPath(u: Uri): (p: Path)
    ensures u.UriPath? ==> p == u.p
    ensures u.UriText? ==> p.text == u.s
  {
    match u
    case UriPath(p) => p
    case UriText(s) => Path(s)
  }

  /** `read_text`: only a regular file can be read. */
  function ReadText(n: Node): (r: Result<Content, Error>)
    ensures r.Success? <==> n.Regular?
    ensures r.Success? ==> r.value == n.content
    ensures n.Absent? ==> r == Failure(FileNotFoundError)
    ensures n.Directory? ==> r == Failure(IsADirectoryError)
  {
    match n
    case Absent => Failure(FileNotFoundError)
    case Directory => Failure(IsADirectoryError)
    case Regular(c) => Success(c)
  }

  /** `stat().st_size == 0`: an absent path has no size; a directory's size is never zero. */
  function SizeIsZero(n: Node): (r: Result<bool, Error>)
    ensures r.Failure? <==> n.Absent?
    ensures r == Success(true) <==> n == Regular(Blank)
  {
    match n
    case Absent => Failure(FileNotFoundError)
    case Directory => Success(false)
    case Regular(c) => Success(c == Blank)
  }

  /** `touch(exist_ok=True)`: creates an empty file where there is nothing, otherwise leaves the path as it is. */
  function Touched(n: Node): Node {
    if n.Absent? then Regular(Blank) else n
  }

  /** An empty file is not JSON, and neither is malformed text. */
  function AsJson(c: Content): (r: Result<Json, Error>)
    ensures r.Success? <==> c.Text?
    ensures r.Success? ==> r.value == c.doc
    ensures r.Failure? ==> r.error == ValidationError
  {
    if c.Text? then Success(c.doc) else Failure(ValidationError)
  }

  /** Touching makes the path exist, keeps what was already there, and a second touch changes nothing. */
  lemma TouchedFacts(n: Node)
    ensures !Touched(n).Absent?
    ensures !n.Absent? ==> Touched(n) == n
    ensures Touched(Touched(n)) == Touched(n)
  {
  }

  /** The state of the file at the manager's path. */
  class Disk {
    var node: Node

    constructor (node: Node)
      ensures this.node == node
    {
      this.node := node;
    }

    method Touch()
      modifies this
      ensures node == Touched(old(node))
    {
      if node.Absent? {
        node := Regular(Blank);
      }
    }

    /** `write_text`: replaces a regular file's text or creates the file; a directory cannot be written. */
    method WriteText(doc: Json) returns (o: Outcome<Error>)
      modifies this
      ensures old(node).Directory? ==> o == Fail(IsADirectoryError) && node == old(node)
      ensures !old(node).Directory? ==> o == Pass && node == Regular(Text(doc))
    {
      if node.Directory? {
        return Fail(IsADirectoryError);
      }
      node := Regular(Text(doc));
      return Pass;
    }

    /** `unlink`: removes a regular file. */
    method Unlink()
      requires node.Regular?
      modifies this
      ensures node == Absent
    {
      node := Absent;
    }
  }
}

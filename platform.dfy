/**
 * What the services call but do not implement: MD5 over UTF-8, Newtonsoft.Json,
 * the Razor engine and the order in which the file system lists a directory;
 * and the .NET exceptions the core throws.
 */
module Platform {
  import opened Wrappers
  import opened Models

  newtype byte = b: int | 0 <= b < 256

  /** An MD5 digest (RFC 1321): sixteen bytes. */
  type Digest = d: seq<byte> | |d| == 16 witness seq(16, _ => 0)

  /** The exceptions the core raises, with the messages .NET gives them. */
  datatype Exception =
    | FileNotFound(message: string, fileName: Option<string>)
    | InvalidOperation(message: string)
    | NullReference
    | ArgumentNull(paramName: string)
    | NullBinding
    | InvalidArguments(member: string)
    | LibraryError(message: string)
  {
    function Message(): string {
      match this
      case FileNotFound(m, _) => m
      case InvalidOperation(m) => m
      case NullReference => "Object reference not set to an instance of an object."
      case ArgumentNull(p) => "Value cannot be null. (Parameter '" + p + "')"
      case NullBinding => "Cannot perform runtime binding on a null reference"
      case InvalidArguments(m) => "The best overloaded method match for '" + m + "' has some invalid arguments"
      case LibraryError(m) => m
    }
  }

  /**
   * The external functions, passed in as values.
   *   md5               MD5 of the UTF-8 bytes of a string
   *   serialize         JsonConvert.SerializeObject of a payload
   *   parse             JsonConvert.DeserializeObject of a text (Failure carries the parser's message)
   *   text              ToString of a payload (the text a Razor template is posted as)
   *   serializeTestCase JsonConvert.SerializeObject of a whole test case
   *   parseTestCase     JsonConvert.DeserializeObject<TestCase> (None for the text "null")
   *   parseGraphQl      JsonConvert.DeserializeObject<GraphQlRequest>
   *   render            RazorLight's CompileRenderStringAsync(templateKey, template, model)
   *   listingOrder      the order in which the directory lists a set of file names
   */
  datatype Library = Library(
    md5: string -> Digest,
    serialize: Json -> string,
    parse: string -> Result<Json, string>,
    text: Json -> string,
    serializeTestCase: TestCase -> string,
    parseTestCase: string -> Result<Option<TestCase>, string>,
    parseGraphQl: string -> Result<Option<GraphQlRequest>, string>,
    render: (string, string, RazorModel) -> string,
    listingOrder: set<string> -> seq<string>)

  /** `order` lists every element of `names`, each exactly once. */
  predicate ListsEachOnce(order: seq<string>, names: set<string>) {
    && (forall x :: x in order ==> x in names)
    && (forall x :: x in names ==> x in order)
    && (forall i, j :: 0 <= i < j < |order| ==> order[i] != order[j])
  }

  /**
   * Newtonsoft reads back what it wrote, for payloads and for whole test cases,
   * and a directory listing names each file once.
   */
  ghost predicate Lawful(lib: Library) {
    && (forall j :: lib.parse(lib.serialize(j)) == Success(j))
    && (forall tc :: lib.parseTestCase(lib.serializeTestCase(tc)) == Success(Some(tc)))
    && (forall names :: ListsEachOnce(lib.listingOrder(names), names))
  }
}

/**
 * The text-format adapter: one uniform `GetContent` over three unrelated
 * readers (a TXT, a JSON and an XML file stand-in), each of which produces a
 * fixed piece of text. The adapter wraps an arbitrary object and dispatches on
 * its dynamic kind; any object that is none of the three readers is refused
 * with a "not supported" error.
 */
module Adapter {

  /** The dynamic kind of the object an adapter wraps. `Other` stands for every
      object that is not one of the three readers (null included). */
  datatype Adaptee = TxtFile | JsonFile | XmlFile | Other

  /** The one error kind of the adapter: the wrapped object has no reader. */
  datatype Error = NotSupported(message: string)

  datatype Result<T> = Ok(value: T) | Err(error: Error)

  /** Diagnostic carried by the "not supported" error. */
  const UnknownFormat: string := "Невідомий формат"

  /** Content produced by the TXT reader. */
  function ReadTxt(): (content: string)
  {
    "Дані з TXT файлу"
  }

  /** Content produced by the JSON reader. */
  function ReadJson(): (content: string)
  {
    "{ \"message\": \"Дані з JSON файлу\" }"
  }

  /** Content produced by the XML reader. */
  function ReadXml(): (content: string)
  {
    "<message>Дані з XML файлу</message>"
  }

  /** True of the kinds the adapter knows how to read. */
  predicate Supported(kind: Adaptee)
  {
    kind != Other
  }

  /** An adapter; the wrapped kind is fixed when it is built and never changes. */
  datatype TextFormatAdapter = TextFormatAdapter(adaptee: Adaptee)
  {
    /** The wrapped reader's content, or the "not supported" error. */
    function GetContent(): (r: Result<string>)
      ensures r.Ok? <==> Supported(adaptee)
      ensures r.Err? ==> r.error == NotSupported(UnknownFormat)
    {
      match adaptee
      case TxtFile => Ok(ReadTxt())
      case JsonFile => Ok(ReadJson())
      case XmlFile => Ok(ReadXml())
      case Other => Err(NotSupported(UnknownFormat))
    }
  }

  /** Each supported reader's text comes back verbatim through the adapter. */
  lemma GetContentVerbatim()
    ensures TextFormatAdapter(TxtFile).GetContent() == Ok(ReadTxt())
    ensures TextFormatAdapter(JsonFile).GetContent() == Ok(ReadJson())
    ensures TextFormatAdapter(XmlFile).GetContent() == Ok(ReadXml())
    ensures TextFormatAdapter(Other).GetContent().Err?
  {
  }

  /** The three readers produce pairwise distinct texts, so a successful
      `GetContent` determines which kind of object was wrapped. */
  lemma ContentIdentifiesFormat(a: TextFormatAdapter, b: TextFormatAdapter)
    requires a.GetContent().Ok? && a.GetContent() == b.GetContent()
    ensures a.adaptee == b.adaptee
  {
    assert ReadTxt()[0] == 'Д' && ReadJson()[0] == '{' && ReadXml()[0] == '<';
  }
}

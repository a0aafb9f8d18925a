/**
  The document nodes the table of contents is built from (src/html-builder.js), as
  plain data: `createElement` makes an element with its attributes in the order the
  attribute object lists them and its children in order, and `createTextElement` makes
  a text node.
 */
module Dom {
  datatype Attribute = Attribute(name: string, value: string)

  datatype Node =
    | Element(tagName: string, attributes: seq<Attribute>, children: seq<Node>)
    | Text(data: string)
}

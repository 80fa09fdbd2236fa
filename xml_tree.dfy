/**
 * The abstract element tree the XML converters read and write: a node has a name,
 * attributes, ordered children and a text value. `Attribute` is the reader's
 * `getAttribute`, `value` its `getValue`, and walking `children` in order is the
 * `hasMoreChildren`/`moveDown`/`moveUp` cursor.
 */
module XmlTree {
  import opened Wrappers

  datatype Node = Node(name: string, attributes: map<string, string>, children: seq<Node>, value: string)

  /** The failures a conversion raises. */
  datatype XmlError =
    | NumberFormat(text: string)             // NumberFormatException from Integer.parseInt
    | UnknownConstraintTarget(token: string) // IllegalArgumentException from ConstraintTarget.valueOf
    | NullPattern                            // NullPointerException from Pattern.compile(null)
    | IllegalArgument(message: string)       // IllegalArgumentException from an argument check
    | StreamFailure(message: string)         // any failure raised by the XML library itself

  /** `reader.getAttribute(key)`: `None` when the attribute is absent. */
  function Attribute(n: Node, key: string): Option<string> {
    if key in n.attributes then Some(n.attributes[key]) else None
  }

  /** An element holding only text: `startNode(name); setValue(text); endNode()`. */
  function TextElement(name: string, text: string): Node {
    Node(name, map[], [], text)
  }
}

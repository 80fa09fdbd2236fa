/**
 * Validation context nodes: where inside an object graph a validated value
 * was found. `OValContext` is the base of a closed set of node kinds; its only
 * state is the compile-time type of the located value.
 */
module Context {
  import opened Wrappers

  /** A `Class<?>` reference, identified by its fully qualified name. */
  datatype JavaClass = JavaClass(name: string)

  /** The concrete context classes; the last three are container-element nodes. */
  datatype ContextKind =
    | ClassContext
    | FieldContext
    | ConstructorParameterContext
    | MethodParameterContext
    | MethodReturnValueContext
    | IterableElementContext
    | MapKeyContext
    | MapValueContext

  /** A context node; `compileTimeType == None` is the `null` the source allows. */
  datatype OValContext = OValContext(kind: ContextKind, compileTimeType: Option<JavaClass>)
  {
    /** `getCompileTimeType()`: the stored type, possibly absent. */
    function CompileTimeType(): (t: Option<JavaClass>)
      ensures t == compileTimeType
    {
      compileTimeType
    }

    /** The base `getDeclaringClass()`: no declaring class. */
    function DeclaringClass(): (c: Option<JavaClass>)
      ensures c.None?
    {
      None
    }

    /** The base `toStringUnqualified()`: the node's `toString()`, which each context class defines. */
    function ToStringUnqualified(toString: OValContext -> string): (s: string)
      ensures s == toString(this)
    {
      toString(this)
    }

    /** The `instanceof` test the path renderer applies. */
    predicate IsContainerElement() {
      kind.IterableElementContext? || kind.MapKeyContext? || kind.MapValueContext?
    }
  }
}

/** The mutable .NET library objects the modelled code keeps as locals. */
module Collections {
  import opened Text

  /** `HashSet<T>`, reduced to the operation the loops use. */
  class HashSet<T(==)> {
    var elements: set<T>

    constructor ()
      ensures elements == {}
    {
      elements := {};
    }

    /** `Add`: inserts `x` and reports whether it was absent before. */
    method Add(x: T) returns (added: bool)
      modifies this
      ensures added <==> x !in old(elements)
      ensures elements == old(elements) + {x}
    {
      added := x !in elements;
      elements := elements + {x};
    }
  }

  /** `List<T>`, reduced to appending. */
  class List<T> {
    var items: seq<T>

    constructor ()
      ensures items == []
    {
      items := [];
    }

    method Add(x: T)
      modifies this
      ensures items == old(items) + [x]
    {
      items := items + [x];
    }
  }

  /** `StringBuilder`, reduced to `AppendLine` and `ToString`. */
  class StringBuilder {
    var text: string

    constructor ()
      ensures text == ""
    {
      text := "";
    }

    method AppendLine(line: string)
      modifies this
      ensures text == old(text) + line + NewLine
    {
      text := text + line + NewLine;
    }

    function ToString(): string
      reads this
    {
      text
    }
  }
}

/**
 * What a lookup `record[key]` on a plain object literal finds when `key` is not
 * one of the record's own keys: the members every object inherits from
 * `Object.prototype`. Both lookup tables of the core (`patternLabels` and
 * `aliasMap`) are such literals, and both turn what they find into a string
 * (`join`, and a template literal), so a member is modelled by its string form
 * as Node.js writes it.
 */
module ObjectPrototype {
  import opened Optional

  /** The names of the members of `Object.prototype`. */
  const InheritedNames: seq<string> := [
    "constructor", "__defineGetter__", "__defineSetter__", "hasOwnProperty",
    "__lookupGetter__", "__lookupSetter__", "isPrototypeOf", "propertyIsEnumerable",
    "toString", "valueOf", "__proto__", "toLocaleString"]

  /** `String(f)` for a built-in function named `name`. */
  function NativeFunction(name: string): string
  {
    "function " + name + "() { [native code] }"
  }

  /**
   * The string form of the member inherited under `key`: `constructor` is the
   * `Object` function, `__proto__` is `Object.prototype` itself, and the other
   * members are the built-in functions of those names.
   */
  function Inherited(key: string): Option<string>
  {
    if key == "constructor" then Some(NativeFunction("Object"))
    else if key == "__proto__" then Some("[object Object]")
    else if key in InheritedNames then Some(NativeFunction(key))
    else None
  }

  /** An ASCII letter or '_'. */
  predicate IsNameChar(c: char) {
    ('a' <= c <= 'z') || ('A' <= c <= 'Z') || c == '_'
  }

  /** Exactly the member names find something. */
  lemma InheritedDomain(key: string)
    ensures Inherited(key).Some? <==> key in InheritedNames
  {
  }

  /** No member name holds a '+' or starts with 'f' or '['; each starts and ends with a letter or '_'. */
  lemma NamesShape(i: int)
    requires 0 <= i < |InheritedNames|
    ensures '+' !in InheritedNames[i] && InheritedNames[i] != []
    ensures InheritedNames[i][0] != 'f' && InheritedNames[i][0] != '['
    ensures IsNameChar(InheritedNames[i][0]) && IsNameChar(InheritedNames[i][|InheritedNames[i]| - 1])
  {
  }

  /** A built-in function prints as a '+'-free text from 'f' to '}' when its name is '+'-free. */
  lemma NativeFunctionShape(name: string)
    requires '+' !in name
    ensures var v := NativeFunction(name);
            '+' !in v && v != [] && v[0] == 'f' && v[|v| - 1] == '}'
  {
    var v := NativeFunction(name);
    assert v == "function " + (name + "() { [native code] }");
    assert '+' !in "() { [native code] }";
  }

  /**
   * What an inherited member prints as holds no '+', starts with 'f' or '[' and
   * ends with '}' or ']', and is not itself the name of an inherited member.
   */
  lemma InheritedValueShape(key: string)
    requires key in InheritedNames
    ensures var v := Inherited(key).value;
            && '+' !in v && v != []
            && (v[0] == 'f' || v[0] == '[') && (v[|v| - 1] == '}' || v[|v| - 1] == ']')
            && Inherited(v) == None
  {
    var v := Inherited(key).value;
    var i :| 0 <= i < |InheritedNames| && InheritedNames[i] == key;
    NamesShape(i);
    if key == "constructor" {
      NativeFunctionShape("Object");
    } else if key != "__proto__" {
      NativeFunctionShape(key);
    }
    assert v[0] == 'f' || v[0] == '[';
    forall j | 0 <= j < |InheritedNames| ensures InheritedNames[j] != v {
      NamesShape(j);
    }
  }
}

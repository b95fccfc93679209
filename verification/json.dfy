/** Untyped input values, as a schema validator receives them from a JSON
    document or a JavaScript object.  An object's absent key is the
    JavaScript value `undefined`.  Numbers are mathematical reals: the NaN
    and infinite values of IEEE doubles are not represented. */
module Json {

  import opened Wrappers

  datatype Value =
    | Null
    | Bool(b: bool)
    | Num(n: real)
    | Str(s: string)
    | Arr(items: seq<Value>)
    | Obj(fields: map<string, Value>)

  /** The number stored under `key`, if the key is present and holds a number. */
  function NumField(fields: map<string, Value>, key: string): Option<real>
  {
    if key in fields && fields[key].Num? then Some(fields[key].n) else None
  }

  /** The string stored under `key`, if the key is present and holds a string. */
  function StrField(fields: map<string, Value>, key: string): Option<string>
  {
    if key in fields && fields[key].Str? then Some(fields[key].s) else None
  }

  /** The boolean stored under `key`, if the key is present and holds a boolean. */
  function BoolField(fields: map<string, Value>, key: string): Option<bool>
  {
    if key in fields && fields[key].Bool? then Some(fields[key].b) else None
  }
}

/** Payload validation: on decoded values, and on the events of an XML payload. */
module Validation {
  import opened Results
  import opened Wire
  import opened Codec

  /** Expected children with whether they are required; `strict` forbids others. */
  datatype Schema = Schema(rootTag: string, fields: map<string, bool>, strict: bool)

  /**
   Which check failed. With several bad names the program reports one of them, in the order of
   a hash table; the names are not modelled. `Overflow` is the depth counter leaving 32 bits.
   */
  datatype ValidationError = WrongRoot | Unexpected | MissingRequired | NoRoot | Unreadable | Overflow

  type Verdict = Result<(), ValidationError>

  const MAX_DEPTH: nat := 0xFFFF_FFFF

  function FieldNames(fields: seq<Field>): set<string> {
    set i | 0 <= i < |fields| :: fields[i].name
  }

  function Present(v: Value): set<string> {
    if v.Rec? then FieldNames(v.fields) else {}
  }

  predicate HasUnexpected(present: set<string>, schema: Schema) {
    schema.strict && exists name :: name in present && name !in schema.fields
  }

  predicate LacksRequired(present: set<string>, schema: Schema) {
    exists name :: name in schema.fields && schema.fields[name] && name !in present
  }

  function ValidateValue(v: Value, schema: Schema): Verdict {
    if HasUnexpected(Present(v), schema) then Err(Unexpected)
    else if LacksRequired(Present(v), schema) then Err(MissingRequired)
    else Ok(())
  }

  function Permissive(tag: string): Schema {
    Schema(tag, map[], false)
  }

  function ValidateTagged(schemas: map<string, Schema>, tag: string, v: Value): Verdict {
    ValidateValue(v, if tag in schemas then schemas[tag] else Permissive(tag))
  }

  class SchemaRegistry {
    var schemas: map<string, Schema>

    constructor ()
      ensures schemas == map[]
    {
      schemas := map[];
    }

    method Register(schema: Schema)
      modifies this
      ensures schemas == old(schemas)[schema.rootTag := schema]
    {
      schemas := schemas[schema.rootTag := schema];
    }
  }

  /** The part of a tag after its last colon. */
  function LocalName(name: string): string {
    if ':' !in name then name
    else
      var i := Find(name, ':');
      LocalName(name[i + 1..])
  }

  // ---- The streaming validator ----

  /** Where the validator is: nesting depth, whether a root was seen, children seen. */
  datatype Progress = Progress(depth: nat, foundRoot: bool, found: set<string>)

  const AT_START := Progress(0, false, {})

  /** An element opens at depth `level`. */
  function Entered(p: Progress, level: nat, tag: string, schema: Schema): Result<Progress, ValidationError> {
    if level > MAX_DEPTH then Err(Overflow)
    else if level == 1 then
      if tag != schema.rootTag then Err(WrongRoot) else Ok(p.(foundRoot := true))
    else if level == 2 && p.foundRoot then
      if schema.strict && tag !in schema.fields then Err(Unexpected) else Ok(p.(found := p.found + {tag}))
    else Ok(p)
  }

  function StreamFrom(evs: seq<Event>, i: nat, p: Progress, schema: Schema): Result<Progress, ValidationError>
    decreases |evs| - i
  {
    match At(evs, i)
    case Start(name, _) =>
      var q :- Entered(p, p.depth + 1, LocalName(name), schema);
      StreamFrom(evs, i + 1, q.(depth := p.depth + 1), schema)
    case Void(name, _) =>
      var q :- Entered(p, p.depth + 1, LocalName(name), schema);
      StreamFrom(evs, i + 1, q, schema)
    case End(_) => if p.depth == 0 then Err(Overflow) else StreamFrom(evs, i + 1, p.(depth := p.depth - 1), schema)
    case Eof => Ok(p)
    case Bad => Err(Unreadable)
    case _ => StreamFrom(evs, i + 1, p, schema)
  }

  function Finish(p: Progress, schema: Schema): Verdict {
    if !p.foundRoot then Err(NoRoot)
    else if LacksRequired(p.found, schema) then Err(MissingRequired)
    else Ok(())
  }

  function Stream(evs: seq<Event>, schema: Schema): Verdict {
    var p :- StreamFrom(evs, 0, AT_START, schema);
    Finish(p, schema)
  }

  method ValidatePayload(evs: seq<Event>, schema: Schema) returns (r: Verdict)
    ensures r == Stream(evs, schema)
  {
    var foundRoot := false;
    var foundFields: set<string> := {};
    var depth: nat := 0;
    var i := 0;
    while true
      invariant StreamFrom(evs, i, Progress(depth, foundRoot, foundFields), schema)
        == StreamFrom(evs, 0, AT_START, schema)
      decreases |evs| - i
    {
      var e := At(evs, i);
      match e {
        case Start(name, _) =>
          var tag := LocalName(name);
          depth := depth + 1;
          if depth > MAX_DEPTH {
            return Err(Overflow);
          }
          if depth == 1 {
            if tag != schema.rootTag {
              return Err(WrongRoot);
            }
            foundRoot := true;
          } else if depth == 2 && foundRoot {
            if schema.strict && tag !in schema.fields {
              return Err(Unexpected);
            }
            foundFields := foundFields + {tag};
          }
        case Void(name, _) =>
          var tag := LocalName(name);
          depth := depth + 1;
          if depth > MAX_DEPTH {
            return Err(Overflow);
          }
          if depth == 1 {
            if tag != schema.rootTag {
              return Err(WrongRoot);
            }
            foundRoot := true;
          } else if depth == 2 && foundRoot {
            if schema.strict && tag !in schema.fields {
              return Err(Unexpected);
            }
            foundFields := foundFields + {tag};
          }
          depth := depth - 1;
        case End(_) =>
          if depth == 0 {
            return Err(Overflow);
          }
          depth := depth - 1;
        case Eof => break;
        case Bad => return Err(Unreadable);
        case _ =>
      }
      i := i + 1;
    }
    if !foundRoot {
      return Err(NoRoot);
    }
    var unchecked := schema.fields.Keys;
    while unchecked != {}
      invariant unchecked <= schema.fields.Keys
      invariant forall name :: name in schema.fields && name !in unchecked && schema.fields[name] ==>
        name in foundFields
      decreases |unchecked|
    {
      var name :| name in unchecked;
      if schema.fields[name] && name !in foundFields {
        return Err(MissingRequired);
      }
      unchecked := unchecked - {name};
    }
    r := Ok(());
  }
}

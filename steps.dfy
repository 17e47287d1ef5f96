/**
 * The execution-plan steps the plan callbacks create and wire together. A mutation step
 * (insert or update of one row) holds the value expression set for each attribute;
 * `set` replaces the expression in place.
 */
module Steps {
  import opened Wrappers
  import opened Host

  /** The deferred value an attribute of a mutation step is set to. */
  datatype Expr =
    | ItemGet(field: string)
      // `$item.get(field)` on the nested input object
    | StepGet(step: nat, attribute: string)
      // `$step.get(attribute)` on another mutation step, named by its id
    | NodeIdPart(element: Option<nat>, nodeIdField: string, key: string)
      // `spec[key]` of the node id read from field `nodeIdField` of the argument
      // (of list element `element` when the argument is a list)

  /** The runtime shape of an argument step. */
  datatype ArgStep =
    | InputObject
    | PlanObject
    | InputList(elements: seq<ArgStep>)
    | Other(className: string)

  /** `isObjectLikeStep`. */
  predicate ObjectLike(s: ArgStep) {
    s.InputObject? || s.PlanObject?
  }

  /** A `PgInsertSingleStep` or `PgUpdateSingleStep`. */
  class MutationStep {
    const id: nat
    const resource: PgResource
    var values: map<string, Expr>

    constructor (id: nat, resource: PgResource, values: map<string, Expr>)
      ensures this.id == id && this.resource == resource && this.values == values
    {
      this.id := id;
      this.resource := resource;
      this.values := values;
    }

    /** `$step.set(attribute, value)`. */
    method Set(attribute: string, value: Expr)
      modifies this
      ensures values == old(values)[attribute := value]
    {
      values := values[attribute := value];
    }

    /** `$step.get(attribute)`: a deferred read of the row this step writes. */
    function Get(attribute: string): (e: Expr)
      ensures e.StepGet? && e.step == id && e.attribute == attribute
    {
      StepGet(id, attribute)
    }
  }
}

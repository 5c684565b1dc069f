/** src/graphs/factory.py: the registry of renderer implementations, by name. */
module Factory {
  import opened Base
  import opened Lists

  /** A renderer implementation: the built-in Plotly one, or a class registered at run time. */
  datatype RendererClass = PlotlyRendererClass | CustomClass(id: string)

  /** An instance of a renderer class. */
  datatype Renderer = Renderer(cls: RendererClass)

  /** The name `get_renderer` uses when none is given. */
  const DefaultName: string := "plotly"

  /**
   * The module-level registry: a dictionary from name to class. `names` is the key order
   * of the dictionary, which is insertion order.
   */
  class Registry {
    var classes: map<string, RendererClass>
    var names: seq<string>

    ghost predicate Valid()
      reads this
    {
      && Distinct(names)
      && (forall n :: n in names <==> n in classes)
    }

    /** The registry as the module defines it: only `"plotly"`, bound to the Plotly renderer. */
    constructor ()
      ensures Valid()
      ensures classes == map[DefaultName := PlotlyRendererClass] && names == [DefaultName]
    {
      classes := map[DefaultName := PlotlyRendererClass];
      names := [DefaultName];
    }

    /**
     * `get_renderer`: a fresh instance of the class registered under `name`; an unknown
     * name is refused with the list of known names.
     */
    function GetRenderer(name: string): (r: Result<Renderer>)
      reads this
      requires Valid()
      ensures r.Ok? <==> name in names
      ensures r.Ok? ==> r.value.cls == classes[name]
      ensures r.Err? ==> r.error == UnknownRenderer(name, names)
    {
      if name !in classes then Err(UnknownRenderer(name, names))
      else Ok(Renderer(classes[name]))
    }

    /** `list_renderers`: every registered name once, in registration order. */
    function ListRenderers(): (r: seq<string>)
      reads this
      requires Valid()
      ensures r == names
      ensures Distinct(r)
      ensures forall n :: n in r <==> n in classes
    {
      names
    }

    /**
     * `register_renderer`: binds `name` to `cls`, replacing any earlier binding. Other names
     * keep their classes; a new name goes to the end of the list, a known one keeps its place.
     */
    method Register(name: string, cls: RendererClass)
      requires Valid()
      modifies this
      ensures Valid()
      ensures classes == old(classes)[name := cls]
      ensures names == if name in old(names) then old(names) else old(names) + [name]
      ensures GetRenderer(name) == Ok(Renderer(cls))
      ensures name in ListRenderers()
      ensures forall n :: n != name ==> GetRenderer(n).Ok? == old(GetRenderer(n)).Ok?
      ensures forall n :: n != name && n in old(classes) ==> GetRenderer(n) == old(GetRenderer(n))
      ensures name in old(names) ==> ListRenderers() == old(ListRenderers())
    {
      if name !in names {
        DistinctSnoc(names, name);
        names := names + [name];
      }
      classes := classes[name := cls];
    }
  }
}

/** The course resource as the back end returns it, and its JSON object form. */
module CourseModel {
  import opened Options
  import opened JsValue

  /**
   * A course. `duration` is in hours and `price` in whole currency units. The three
   * optional fields may be missing or `null` in a response.
   */
  datatype Course = Course(
    id: int,
    title: string,
    description: string,
    instructor: string,
    category: string,
    difficulty: string,
    duration: int,
    price: int,
    thumbnail: Option<string>,
    curriculum: Option<seq<string>>,
    requirements: Option<seq<string>>,
    active: bool)

  function OptionalText(v: Option<string>): Value {
    match v
    case Some(s) => Str(s)
    case None => Null
  }

  function OptionalList(v: Option<seq<string>>): Value {
    match v
    case Some(xs) => StrList(xs)
    case None => Null
  }

  /** The JSON object the back end sends for a course; missing optional fields are `null`. */
  function ToObject(c: Course): (o: Object)
    ensures o.Keys == {"id", "title", "description", "instructor", "category", "difficulty",
                       "duration", "price", "thumbnail", "curriculum", "requirements", "active"}
    ensures o["title"] == Str(c.title) && o["description"] == Str(c.description)
    ensures o["instructor"] == Str(c.instructor) && o["category"] == Str(c.category)
    ensures o["duration"] == Num(c.duration) && o["price"] == Num(c.price)
    ensures Lookup(o, "curriculum") == (if c.curriculum.Some? then Some(StrList(c.curriculum.value)) else None)
    ensures Lookup(o, "requirements") == (if c.requirements.Some? then Some(StrList(c.requirements.value)) else None)
  {
    map[
      "id" := Num(c.id),
      "title" := Str(c.title),
      "description" := Str(c.description),
      "instructor" := Str(c.instructor),
      "category" := Str(c.category),
      "difficulty" := Str(c.difficulty),
      "duration" := Num(c.duration),
      "price" := Num(c.price),
      "thumbnail" := OptionalText(c.thumbnail),
      "curriculum" := OptionalList(c.curriculum),
      "requirements" := OptionalList(c.requirements),
      "active" := Bool(c.active)
    ]
  }
}

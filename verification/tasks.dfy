/** The task record, the in-memory store and the store the service starts with. */
module Tasks {

  /** One task as the service holds it and as it travels as JSON under the
      keys `id`, `description`, `note` and `applications`. */
  datatype Task = Task(id: string, description: string, note: string, applications: seq<string>)

  /** The process-wide store, keyed by task id. Iteration order plays no role. */
  type Store = map<string, Task>

  /** The JSON names of the task fields. */
  const TaskFields: set<string> := {"id", "description", "note", "applications"}

  /** ASCII lower-casing of one character; other characters are left alone. */
  function LowerAscii(c: char): char
  {
    if 'A' <= c <= 'Z' then (c as int - 'A' as int + 'a' as int) as char else c
  }

  /** The two strings are equal once ASCII letters are lower-cased. */
  predicate EqualFoldAscii(a: string, b: string)
  {
    |a| == |b| && forall i :: 0 <= i < |a| ==> LowerAscii(a[i]) == LowerAscii(b[i])
  }

  /** A JSON object key the decoder matches to a task field. The match ignores
      case, so `ID` and `Description` name fields just as `id` and `description` do. */
  predicate KnownKey(k: string)
  {
    exists f :: f in TaskFields && EqualFoldAscii(k, f)
  }

  /** Every entry is filed under its own id. */
  predicate WellKeyed(s: Store)
  {
    forall id :: id in s ==> s[id].id == id
  }

  /** The first seed task: finish the REST API assignment. */
  const FirstSeedTask: Task := Task(
    "1",
    "Сделать финальное задание темы REST API",
    "Если сегодня сделаю, то завтра будет свободный день. Ура!",
    ["VS Code", "Terminal", "git"])

  /** The second seed task: test the assignment with Postman. */
  const SecondSeedTask: Task := Task(
    "2",
    "Протестировать финальное задание с помощью Postmen",
    "Лучше это делать в процессе разработки, каждый раз, когда запускаешь сервер и проверяешь хендлер",
    ["VS Code", "Terminal", "git", "Postman"])

  /** The two tasks the store holds when the process starts. */
  function Seed(): (s: Store)
    ensures s.Keys == {"1", "2"}
    ensures WellKeyed(s)
    ensures |s| == 2
  {
    var s := map[FirstSeedTask.id := FirstSeedTask, SecondSeedTask.id := SecondSeedTask];
    assert s.Keys == {"1", "2"};
    s
  }
}

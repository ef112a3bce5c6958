/** The markdown fenced code block, tagged `sql`, in which a generated query travels
    inside a chat message. */
module Markdown {

  const SqlOpen := "```sql\n"
  const SqlClose := "\n```"

  /** The query q as a fenced `sql` block. */
  function SqlBlock(q: string): string {
    SqlOpen + q + SqlClose
  }
}

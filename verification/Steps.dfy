/** What one pass of a worker makes of a game. */
module Steps {
  datatype Progress<+G, +R> = Failed | Again(next: G) | Finished(result: R)
}

/** The contract of the embedder, and the dimension that the embeddings table is constrained to. */
module Embeddings {

  const DIMENSIONS := 1024

  type Vector = seq<real>
}

/** Audio as the capture layer hands it on: float samples in arrival order. */
module Audio {

  type Samples = seq<real>
}

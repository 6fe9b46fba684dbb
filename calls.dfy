/** The call record the short- and long-read pipelines build, one per data
    line of a subject's VCF file. */
module Calls {
  datatype Call = Call(chrom1: string, pos1: int, chrom2: string, pos2: int, svId: string,
                       svType: string, svLen: int, genotype: string,
                       pt: string, family: string, project: string, isProband: bool, system: string)
}

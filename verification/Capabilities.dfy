/** What a volume may be used for: the access modes of the Container Storage Interface. */
module Capabilities {

  datatype AccessMode =
    | SingleNodeWriter | SingleNodeReaderOnly
    | MultiNodeReaderOnly | MultiNodeSingleWriter | MultiNodeMultiWriter
    | OtherMode

  predicate IsMultiNode(mode: AccessMode) {
    mode.MultiNodeReaderOnly? || mode.MultiNodeSingleWriter? || mode.MultiNodeMultiWriter?
  }

  predicate IsReadOnly(mode: AccessMode) {
    mode.SingleNodeReaderOnly? || mode.MultiNodeReaderOnly?
  }
}

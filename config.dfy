/** The artifact paths of the configuration, relative to the project root. */
module Config {
  const OutputDir := "output/"
  const AcceptanceCriteriaPath := OutputDir + "AcceptanceCriteria.md"
  const DesignDocPath := OutputDir + "DesignDocument.md"
  const DeveloperDocPath := OutputDir + "DeveloperDocument.md"
  const GeneratedCodePath := OutputDir + "generated_code.txt"
}
